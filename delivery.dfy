/** The outbound delivery client of the bridge: access-token acquisition, text sends, the
    soft-failing image send, and the dispatch of a parsed reply (`getAccessToken`,
    `sendTextToWecom`, `sendImageToWecom`, `sendReplyToWecom`).

    The network is not modelled; an `Env` value says what every call would get back, and the
    client records, in order, the calls it makes to the messaging platform's message and
    media endpoints. */
module Delivery {
  import opened Common
  import opened ReplyParser

  /** The body of a `gettoken` answer. */
  datatype TokenReply = TokenReply(errcode: Option<int>, errmsg: string, accessToken: string)

  /** The body of a `media/upload` answer. */
  datatype UploadReply = UploadReply(errcode: Option<int>, errmsg: string, mediaId: string)

  /** An HTTP call's outcome: the body of a successful response, or the message of the error
      the HTTP client throws (network failure, non-2xx status). */
  datatype Http<T> = Answered(body: T) | Failed(message: string)

  /** What the outside world answers: which files exist, the token endpoint's answer, the
      upload endpoint's answer per file, and the error (if any) a `message/send` post throws. */
  datatype Env = Env(
    files: set<string>,
    token: Http<TokenReply>,
    upload: string -> Http<UploadReply>,
    postError: Option<string>)

  /** One call to the messaging platform (token requests are not recorded). */
  datatype ApiCall =
    | PostText(touser: string, content: string)
    | UploadMedia(path: string, accessToken: string)
    | PostImage(touser: string, mediaId: string)

  /** The platform's failure signal inside a 200 answer: `errcode && errcode !== 0`. */
  predicate IsError(code: Option<int>) {
    code.Some? && code.value != 0
  }

  /** `getAccessToken`: the token, or the message of the error it throws. */
  function AccessToken(t: Http<TokenReply>): (r: Result<string, string>)
    ensures r.Ok? <==> t.Answered? && !IsError(t.body.errcode)
    ensures r.Ok? ==> r.value == t.body.accessToken
    ensures t.Answered? && IsError(t.body.errcode) ==>
              r == Err("Failed to get AccessToken: " + t.body.errmsg)
    ensures t.Failed? ==> r == Err(t.message)
  {
    match t
    case Failed(m) => Err(m)
    case Answered(body) =>
      if IsError(body.errcode) then Err("Failed to get AccessToken: " + body.errmsg)
      else Ok(body.accessToken)
  }

  /** The calls `sendTextToWecom` makes: the post is attempted exactly when a token was
      obtained; its own failure is only logged. */
  function TextCalls(user: string, text: string, env: Env): (r: seq<ApiCall>)
    ensures |r| <= 1
    ensures r == [PostText(user, text)] <==> AccessToken(env.token).Ok?
  {
    if AccessToken(env.token).Ok? then [PostText(user, text)] else []
  }

  function NotFoundText(path: string): string {
    "Image file not found: " + path
  }

  function ImageFailureText(message: string): string {
    "Failed to send image: " + message
  }

  /** The calls `sendImageToWecom` makes. */
  function ImageCalls(user: string, path: string, env: Env): seq<ApiCall> {
    if path !in env.files then TextCalls(user, NotFoundText(path), env)
    else
      match AccessToken(env.token)
      case Err(m) => TextCalls(user, ImageFailureText(m), env)
      case Ok(token) =>
        [UploadMedia(path, token)] +
        match env.upload(path)
        case Failed(m) => TextCalls(user, ImageFailureText(m), env)
        case Answered(u) =>
          if IsError(u.errcode) then
            TextCalls(user, ImageFailureText("Failed to upload image: " + u.errmsg), env)
          else
            [PostImage(user, u.mediaId)] +
            match env.postError
            case Some(m) => TextCalls(user, ImageFailureText(m), env)
            case None => []
  }

  /** Some message (text or image) is addressed to `user`. */
  ghost predicate ReachesUser(calls: seq<ApiCall>, user: string) {
    exists i :: 0 <= i < |calls| && !calls[i].UploadMedia? && calls[i].touser == user
  }

  /** A missing image file is reported by a text naming the path, and nothing is uploaded. */
  lemma MissingImageReported(user: string, path: string, env: Env)
    requires path !in env.files
    requires AccessToken(env.token).Ok?
    ensures ImageCalls(user, path, env) == [PostText(user, "Image file not found: " + path)]
  {
  }

  /** An existing file is uploaded first, with the token just obtained; an image message is
      posted exactly when the upload succeeded, with the media id it returned. */
  lemma ImageUploadedThenPosted(user: string, path: string, env: Env)
    requires path in env.files && AccessToken(env.token).Ok?
    ensures var r := ImageCalls(user, path, env);
      && r != [] && r[0] == UploadMedia(path, AccessToken(env.token).value)
      && (|r| > 1 && r[1].PostImage? <==>
            env.upload(path).Answered? && !IsError(env.upload(path).body.errcode))
      && (|r| > 1 && r[1].PostImage? ==> r[1] == PostImage(user, env.upload(path).body.mediaId))
  {
  }

  /** However the image send fails, the user hears about it, provided a token can be obtained
      at all: every branch ends in an image or a fallback text to the same user. */
  lemma ImageNeverSilent(user: string, path: string, env: Env)
    requires AccessToken(env.token).Ok?
    ensures ReachesUser(ImageCalls(user, path, env), user)
  {
    var r := ImageCalls(user, path, env);
    if path !in env.files {
      assert r[0].touser == user;
    } else {
      assert !r[1].UploadMedia? && r[1].touser == user;
    }
  }

  /** Without a token nothing at all reaches the platform's message endpoint: even the
      fallback text needs a token of its own. */
  lemma NoTokenNoMessage(user: string, path: string, env: Env)
    requires AccessToken(env.token).Err?
    ensures ImageCalls(user, path, env) == []
  {
  }

  /** What `sendReplyToWecom` sends, in order. */
  datatype DeliveryUnit = TextUnit(text: string) | ImageUnit(path: string)

  const EmptyReplyText: string := "(Received an empty reply)"

  function TextPart(p: ParsedReply): seq<DeliveryUnit> {
    if p.textOnly != "" then [TextUnit(p.textOnly)] else []
  }

  function ImageUnits(paths: seq<string>): (r: seq<DeliveryUnit>)
    ensures |r| == |paths| && forall i :: 0 <= i < |paths| ==> r[i] == ImageUnit(paths[i])
  {
    if paths == [] then [] else [ImageUnit(paths[0])] + ImageUnits(paths[1..])
  }

  function PlaceholderPart(p: ParsedReply): seq<DeliveryUnit> {
    if p.textOnly == "" && |p.imagePaths| == 0 then [TextUnit(EmptyReplyText)] else []
  }

  /** The dispatch rule: text first when there is any, then one unit per image path in order,
      and the placeholder alone exactly when there is neither. */
  function Plan(p: ParsedReply): (units: seq<DeliveryUnit>)
    ensures |units| >= 1
    ensures var o := if p.textOnly != "" then 1 else 0;
      && (p.textOnly != "" ==> units[0] == TextUnit(p.textOnly))
      && (forall i :: 0 <= i < |p.imagePaths| ==> o + i < |units| && units[o + i] == ImageUnit(p.imagePaths[i]))
      && (p.textOnly == "" && p.imagePaths == [] ==> units == [TextUnit(EmptyReplyText)])
      && (p.textOnly != "" || p.imagePaths != [] ==> |units| == o + |p.imagePaths|)
  {
    TextPart(p) + ImageUnits(p.imagePaths) + PlaceholderPart(p)
  }

  /** Every text unit comes before every image unit, and there is at most one text unit. */
  lemma PlanTextBeforeImages(p: ParsedReply, i: nat, j: nat)
    requires i < |Plan(p)| && j < |Plan(p)|
    requires Plan(p)[i].TextUnit? && i != j
    ensures Plan(p)[j].ImageUnit? && i < j
  {
    var units := Plan(p);
    if p.textOnly != "" {
      assert units[j] == ImageUnit(p.imagePaths[j - 1]);
    }
  }

  function UnitCalls(user: string, u: DeliveryUnit, env: Env): seq<ApiCall> {
    match u
    case TextUnit(t) => TextCalls(user, t, env)
    case ImageUnit(path) => ImageCalls(user, path, env)
  }

  /** The calls made for the units, one after another. */
  function DispatchCalls(user: string, units: seq<DeliveryUnit>, env: Env): seq<ApiCall> {
    if units == [] then [] else UnitCalls(user, units[0], env) + DispatchCalls(user, units[1..], env)
  }

  lemma {:induction false} DispatchAppend(user: string, a: seq<DeliveryUnit>, b: seq<DeliveryUnit>, env: Env)
    ensures DispatchCalls(user, a + b, env) == DispatchCalls(user, a, env) + DispatchCalls(user, b, env)
  {
    if a != [] {
      assert (a + b)[0] == a[0];
      assert (a + b)[1..] == a[1..] + b;
      DispatchAppend(user, a[1..], b, env);
    } else {
      assert a + b == b;
    }
  }

  /** Sending the images of `paths[..i + 1]` is sending those of `paths[..i]`, then `paths[i]`. */
  lemma DispatchNextImage(user: string, paths: seq<string>, i: nat, env: Env)
    requires i < |paths|
    ensures DispatchCalls(user, ImageUnits(paths[..i + 1]), env)
         == DispatchCalls(user, ImageUnits(paths[..i]), env) + ImageCalls(user, paths[i], env)
  {
    assert paths[..i + 1] == paths[..i] + [paths[i]];
    assert ImageUnits(paths[..i + 1]) == ImageUnits(paths[..i]) + [ImageUnit(paths[i])];
    DispatchAppend(user, ImageUnits(paths[..i]), [ImageUnit(paths[i])], env);
    assert DispatchCalls(user, [ImageUnit(paths[i])], env) == ImageCalls(user, paths[i], env) + [];
  }

  /** The calls `sendReplyToWecom(user, raw)` makes. */
  function ReplyCalls(user: string, raw: string, env: Env): seq<ApiCall> {
    DispatchCalls(user, Plan(ParseReply(raw)), env)
  }

  /** The calls of a plan, written part by part, in the order `sendReplyToWecom` makes them. */
  function PlanCalls(user: string, p: ParsedReply, env: Env): seq<ApiCall> {
    (if p.textOnly != "" then TextCalls(user, p.textOnly, env) else [])
    + DispatchCalls(user, ImageUnits(p.imagePaths), env)
    + (if p.textOnly == "" && |p.imagePaths| == 0 then TextCalls(user, EmptyReplyText, env) else [])
  }

  /** The calls of a plan are those of its text part, its images and its placeholder part. */
  lemma PlanCallsInParts(user: string, p: ParsedReply, env: Env)
    ensures DispatchCalls(user, Plan(p), env) == PlanCalls(user, p, env)
  {
    DispatchAppend(user, TextPart(p), ImageUnits(p.imagePaths), env);
    DispatchAppend(user, TextPart(p) + ImageUnits(p.imagePaths), PlaceholderPart(p), env);
    if p.textOnly != "" {
      assert DispatchCalls(user, TextPart(p), env) == TextCalls(user, p.textOnly, env) + [];
    }
    if p.textOnly == "" && |p.imagePaths| == 0 {
      assert DispatchCalls(user, PlaceholderPart(p), env) == TextCalls(user, EmptyReplyText, env) + [];
    }
  }

  /** With a token available, every reply reaches its user: the dispatch never sends nothing. */
  lemma ReplyNeverSilent(user: string, raw: string, env: Env)
    requires AccessToken(env.token).Ok?
    ensures ReplyCalls(user, raw, env) != []
    ensures ReachesUser(ReplyCalls(user, raw, env), user)
  {
    PlanNeverSilent(user, ParseReply(raw), env);
  }

  /** The dispatch of any parsed reply sends something to its user. */
  lemma PlanNeverSilent(user: string, p: ParsedReply, env: Env)
    requires AccessToken(env.token).Ok?
    ensures DispatchCalls(user, Plan(p), env) != []
    ensures ReachesUser(DispatchCalls(user, Plan(p), env), user)
  {
    var units := Plan(p);
    UnitReaches(user, units[0], env);
    DispatchReaches(user, units, env);
  }

  /** Each unit on its own reaches the user. */
  lemma UnitReaches(user: string, u: DeliveryUnit, env: Env)
    requires AccessToken(env.token).Ok?
    ensures ReachesUser(UnitCalls(user, u, env), user)
  {
    match u
    case TextUnit(t) => assert UnitCalls(user, u, env)[0] == PostText(user, t);
    case ImageUnit(path) => ImageNeverSilent(user, path, env);
  }

  /** A dispatch whose first unit reaches the user reaches the user. */
  lemma DispatchReaches(user: string, units: seq<DeliveryUnit>, env: Env)
    requires units != [] && ReachesUser(UnitCalls(user, units[0], env), user)
    ensures DispatchCalls(user, units, env) != []
    ensures ReachesUser(DispatchCalls(user, units, env), user)
  {
    var first := UnitCalls(user, units[0], env);
    var all := DispatchCalls(user, units, env);
    assert all == first + DispatchCalls(user, units[1..], env);
    var i :| 0 <= i < |first| && !first[i].UploadMedia? && first[i].touser == user;
    assert all[i] == first[i];
  }

  /** When the reply has text and a token is available, the very first call posts that text. */
  lemma ReplyTextGoesFirst(user: string, raw: string, env: Env)
    requires ParseReply(raw).textOnly != "" && AccessToken(env.token).Ok?
    ensures ReplyCalls(user, raw, env)[0] == PostText(user, ParseReply(raw).textOnly)
  {
    var units := Plan(ParseReply(raw));
    assert units == [units[0]] + units[1..];
    DispatchAppend(user, [units[0]], units[1..], env);
  }

  lemma JoinThree(a: seq<ApiCall>, b: seq<ApiCall>, c: seq<ApiCall>, d: seq<ApiCall>)
    ensures a + b + c + d == a + (b + c + d)
  {
    assert a + b + c + d == a + (b + c) + d;
  }

  /** The outbound client. Every call acquires its own token; `calls` is everything sent so far. */
  class Client {
    const env: Env
    var calls: seq<ApiCall>

    constructor (env: Env)
      ensures this.env == env && calls == []
    {
      this.env := env;
      calls := [];
    }

    /** `sendTextToWecom`. */
    method SendText(user: string, text: string)
      modifies this
      ensures calls == old(calls) + TextCalls(user, text, env)
    {
      var token := AccessToken(env.token);
      if token.Ok? {
        calls := calls + [PostText(user, text)];
      }
    }

    /** `sendImageToWecom`: each failure after the existence check falls back to a text. */
    method SendImage(user: string, path: string)
      modifies this
      ensures calls == old(calls) + ImageCalls(user, path, env)
    {
      if path !in env.files {
        SendText(user, NotFoundText(path));
        return;
      }
      var token := AccessToken(env.token);
      if token.Err? {
        SendText(user, ImageFailureText(token.error));
        return;
      }
      calls := calls + [UploadMedia(path, token.value)];
      var upload := env.upload(path);
      if upload.Failed? {
        SendText(user, ImageFailureText(upload.message));
        return;
      }
      if IsError(upload.body.errcode) {
        SendText(user, ImageFailureText("Failed to upload image: " + upload.body.errmsg));
        return;
      }
      calls := calls + [PostImage(user, upload.body.mediaId)];
      if env.postError.Some? {
        SendText(user, ImageFailureText(env.postError.value));
      }
    }

    /** The `for…of` loop of `sendReplyToWecom`: one image send per path, in order. */
    method SendImages(user: string, paths: seq<string>)
      modifies this
      ensures calls == old(calls) + DispatchCalls(user, ImageUnits(paths), env)
    {
      var i := 0;
      while i < |paths|
        invariant 0 <= i <= |paths|
        invariant calls == old(calls) + DispatchCalls(user, ImageUnits(paths[..i]), env)
      {
        SendImage(user, paths[i]);
        DispatchNextImage(user, paths, i, env);
        i := i + 1;
      }
      assert paths[..i] == paths;
    }

    /** The body of `sendReplyToWecom` after parsing: the text, then each image in order, or
        the placeholder. */
    method SendParsed(user: string, p: ParsedReply)
      modifies this
      ensures calls == old(calls) + PlanCalls(user, p, env)
    {
      ghost var text := if p.textOnly != "" then TextCalls(user, p.textOnly, env) else [];
      ghost var images := DispatchCalls(user, ImageUnits(p.imagePaths), env);
      ghost var placeholder := if p.textOnly == "" && |p.imagePaths| == 0 then TextCalls(user, EmptyReplyText, env) else [];
      if p.textOnly != "" {
        SendText(user, p.textOnly);
      }
      assert calls == old(calls) + text;
      SendImages(user, p.imagePaths);
      assert calls == old(calls) + text + images;
      if p.textOnly == "" && |p.imagePaths| == 0 {
        SendText(user, EmptyReplyText);
      }
      assert calls == old(calls) + text + images + placeholder;
      assert PlanCalls(user, p, env) == text + images + placeholder;
      JoinThree(old(calls), text, images, placeholder);
    }

    /** `sendReplyToWecom`. */
    method SendReply(user: string, raw: string)
      modifies this
      ensures calls == old(calls) + ReplyCalls(user, raw, env)
    {
      var p := ParseReply(raw);
      SendParsed(user, p);
      PlanCallsInParts(user, p, env);
    }
  }
}
