/** The `/wecom` webhook endpoint (`app.all("/wecom", ...)`): URL validation on GET, message
    intake on POST. The WeCom cipher and the XML parser lie outside the model and are given
    as parameters:
      - `decrypt(c)` is the decrypted message of `c`, or `None` when the cipher throws;
      - `parseXml(s)` is `None` when parsing throws, `Some(None)` when the document has no
        `xml` root, and `Some(Some(fields))` with the root's text fields otherwise. */
module Webhook {
  import opened Common

  datatype Verb = Get | Post | OtherVerb

  /** An incoming request: its verb, the `echostr` query parameter and the raw body. */
  datatype Request = Request(verb: Verb, echostr: Option<string>, body: string)

  /** The HTTP answer; `NoAnswer` for verbs the handler never answers. */
  datatype Answer = Answer(status: int, body: string) | NoAnswer

  /** A message handed to the message handler: `FromUserName` and `Content`, either possibly
      missing from the decrypted XML. */
  datatype Handoff = Handoff(user: Option<string>, content: Option<string>)

  /** What one request produces: the answer sent and, at most, one message handed on. */
  datatype Outcome = Outcome(answer: Answer, handoff: Option<Handoff>)

  const ValidationFailed: string := "Validation failed"
  const Acknowledged: string := "success"

  type Decrypt = string -> Option<string>
  type ParseXml = string -> Option<Option<map<string, string>>>

  /** The `xml` root of a parsed document, when parsing succeeds and the root is there. */
  function Root(parseXml: ParseXml, s: string): Option<map<string, string>> {
    match parseXml(s)
    case Some(Some(fields)) => Some(fields)
    case _ => None
  }

  function Field(fields: map<string, string>, name: string): Option<string> {
    if name in fields then Some(fields[name]) else None
  }

  /** The decrypted inner message of a POST body, when every step up to it succeeds: the outer
      XML has a truthy `Encrypt`, it decrypts, and the inner XML has an `xml` root. */
  function InnerMessage(body: string, decrypt: Decrypt, parseXml: ParseXml): (r: Option<map<string, string>>)
    ensures r.Some? ==> exists outer, enc, plain ::
      && Root(parseXml, body) == Some(outer) && Field(outer, "Encrypt") == Some(enc) && enc != ""
      && decrypt(enc) == Some(plain) && Root(parseXml, plain) == r
  {
    match Root(parseXml, body)
    case None => None
    case Some(outer) =>
      match Field(outer, "Encrypt")
      case None => None
      case Some(enc) =>
        if enc == "" then None
        else
          match decrypt(enc)
          case None => None
          case Some(plain) => Root(parseXml, plain)
  }

  /** The endpoint. A GET echoes the decrypted `echostr` or fails with 400; a POST is always
      acknowledged with 200 before any processing, and a text message is handed on; any other
      verb is never answered. */
  function HandleRequest(req: Request, decrypt: Decrypt, parseXml: ParseXml): (out: Outcome)
    ensures req.verb.Get? ==> out.handoff.None?
    ensures req.verb.Get? ==>
      ((out.answer.Answer? && out.answer.status == 200) <==> (req.echostr.Some? && decrypt(req.echostr.value).Some?))
    ensures req.verb.Get? && out.answer.Answer? && out.answer.status == 200 ==>
      out.answer.body == decrypt(req.echostr.value).value
    ensures req.verb.Get? && !(req.echostr.Some? && decrypt(req.echostr.value).Some?) ==>
      out.answer == Answer(400, ValidationFailed)
    ensures req.verb.Post? ==> out.answer == Answer(200, Acknowledged)
    ensures req.verb.OtherVerb? ==> out == Outcome(NoAnswer, None)
    ensures out.handoff.Some? ==> req.verb.Post?
    ensures req.verb.Post? ==>
      (out.handoff.Some? <==>
         var m := InnerMessage(req.body, decrypt, parseXml);
         m.Some? && Field(m.value, "MsgType") == Some("text"))
  {
    match req.verb
    case Get =>
      var plain := if req.echostr.Some? then decrypt(req.echostr.value) else None;
      if plain.Some? then Outcome(Answer(200, plain.value), None)
      else Outcome(Answer(400, ValidationFailed), None)
    case Post =>
      var handoff :=
        match InnerMessage(req.body, decrypt, parseXml)
        case Some(m) =>
          if Field(m, "MsgType") == Some("text") then Some(Handoff(Field(m, "FromUserName"), Field(m, "Content")))
          else None
        case None => None;
      Outcome(Answer(200, Acknowledged), handoff)
    case OtherVerb => Outcome(NoAnswer, None)
  }

  /** A handed-on message carries the sender and the text of the decrypted inner message. */
  lemma HandoffFromInnerMessage(req: Request, decrypt: Decrypt, parseXml: ParseXml)
    requires HandleRequest(req, decrypt, parseXml).handoff.Some?
    ensures var m := InnerMessage(req.body, decrypt, parseXml);
      && m.Some?
      && HandleRequest(req, decrypt, parseXml).handoff.value
           == Handoff(Field(m.value, "FromUserName"), Field(m.value, "Content"))
  {
  }

  /** A message of any other type (an image, an event) is acknowledged and dropped. */
  lemma NonTextIgnored(body: string, decrypt: Decrypt, parseXml: ParseXml, m: map<string, string>)
    requires InnerMessage(body, decrypt, parseXml) == Some(m)
    requires Field(m, "MsgType") != Some("text")
    ensures HandleRequest(Request(Post, None, body), decrypt, parseXml) == Outcome(Answer(200, Acknowledged), None)
  {
  }

  /** A body whose `Encrypt` does not decrypt is acknowledged too, and nothing is handed on. */
  lemma UndecryptableIgnored(body: string, echostr: Option<string>, decrypt: Decrypt, parseXml: ParseXml, outer: map<string, string>)
    requires Root(parseXml, body) == Some(outer)
    requires "Encrypt" in outer && decrypt(outer["Encrypt"]).None?
    ensures HandleRequest(Request(Post, echostr, body), decrypt, parseXml) == Outcome(Answer(200, Acknowledged), None)
  {
  }

  /** The URL check answers the decrypted `echostr`, whatever the body. */
  lemma ValidationEchoes(echostr: string, body: string, decrypt: Decrypt, parseXml: ParseXml, plain: string)
    requires decrypt(echostr) == Some(plain)
    ensures HandleRequest(Request(Get, Some(echostr), body), decrypt, parseXml) == Outcome(Answer(200, plain), None)
  {
  }
}
