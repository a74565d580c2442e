# WeCom–OpenClaw bridge: a Dafny model

This project models the core of the WeCom ↔ OpenClaw webhook bridge. The bridge relays messages
from WeCom (WeChat Work) users to an OpenClaw agent and relays the agent's replies back. The
model also covers the decisions of the bridge's setup script.

**The bridge (`scripts/bridge.js`).** The model covers:

- the startup configuration check;
- the `/wecom` webhook endpoint's GET and POST branching;
- the message handler: wake the agent, find the newest session log, poll it for the reply;
- the reply parser, which splits the `<final>` text from `[IMAGE:…]` markers;
- the order in which text and images are sent;
- the soft-failing image send;
- the token check.

**The setup script (`scripts/setup.js`).** The model covers:

- the search for the OpenClaw home directory;
- the "already configured, or merge the hooks" rule for `openclaw.json`;
- the rewrite of the `OPENCLAW_TOKEN=` line when `.env` is made from its template;
- the test that decides whether a public IP address is accepted, and the order in which IP services are tried;
- the callback URL that is printed.

**How the outside world enters the model.**

- Everything outside these programs is a parameter or a value:
  - the network;
  - the WeCom cipher;
  - the XML and JSON text formats;
  - the clock;
  - the random token.
- Outbound calls to WeCom are recorded in the order they are made. They go into the `calls` field of a `Delivery.Client` object.
- The file system of the setup script is a `Setup.FileSystem` object. It has a map of file contents and a set of directories.

Modules follow the program's structure:

| module | models |
|---|---|
| `Common` | `trim` whitespace, substring search, `path.join`, decimal numerals |
| `Config` | `CONFIG` / `REQUIRED` and `parseInt` |
| `ReplyParser` | `parseReply` |
| `Delivery` | `getAccessToken`, `sendTextToWecom`, `sendImageToWecom`, `sendReplyToWecom` |
| `SessionLog` | `getLatestAssistantReply`, `getLatestSessionFile` |
| `ReplyWaiter` | `waitForReply` |
| `Orchestration` | `handleWecomMessage` |
| `Webhook` | the `/wecom` endpoint |
| `JsonValue` | what `setup.js` does with parsed JSON |
| `Setup` | the setup script |

**Log selection.** The project's own description calls the relayed reply the *latest* assistant
reply. The code instead takes the **first** qualifying record in file order (`lines.find`). The
model follows the code. `SessionLog.FirstInFileOrderNotLatest` shows a log where the two readings
differ.

**Two behaviours of the setup script that the proofs bring out:**

- **Non-object configuration.** When `openclaw.json` holds JSON that is not an object (a number, a string, an array), the hooks assignment changes nothing that is written out. New hooks are still reported, and a fresh token is returned and put into `.env`.
- **`$` in the token.** The token is inserted with `String.prototype.replace`, so `$` patterns in it are expanded. A hex token from `crypto.randomBytes` cannot contain one. A token that was already in `openclaw.json` can.

## Model

| member | source | states |
|---|---|---|
| Config.ParseIntReadsNumeral | scripts/bridge.js:20-23 | `parseInt` reads a decimal numeral back as its number when a non-digit or the end follows it |
| Config.ParseIntReadsNegative | scripts/bridge.js:20-23 | with a leading `-`, the same numeral reads back negated |
| Config.ParseIntNaN | scripts/bridge.js:20-23 | text without any digit gives NaN (`None`) |
| Config.MissingKeysMembers | scripts/bridge.js:28-29 | a key is reported missing exactly when it is required and unset or empty |
| Config.MissingKeysInOrder | scripts/bridge.js:28-29 | missing keys are reported in the order `REQUIRED` lists them |
| Config.LoadSettings | scripts/bridge.js:15-34 | startup fails iff some required variable is unset or empty; the error lists exactly those variables; on success the five required settings are the environment's values, and each optional one is its variable's value (read by `parseInt` for the three numbers) or, when unset or empty, its default |
| Config.DefaultsApply | scripts/bridge.js:20-24 | unset optional variables give agent 1000000, backend port 18789, listen port 3000 and the default sessions directory |
| Delivery.AccessToken | scripts/bridge.js:43-51 | a token is obtained iff the request succeeds with no non-zero `errcode`; the error messages of both failures |
| Delivery.TextCalls | scripts/bridge.js:54-65 | a text is posted (exactly once) iff a token is obtained |
| Delivery.MissingImageReported | scripts/bridge.js:70-74 | a missing image file is reported by a text naming the path, and nothing is uploaded |
| Delivery.ImageUploadedThenPosted | scripts/bridge.js:75-95 | an existing file is uploaded first with the token just obtained; an image is posted iff the upload succeeded, with the returned media id |
| Delivery.ImageNeverSilent | scripts/bridge.js:68-100 | when a token can be obtained, every branch of the image send ends in a message to the user |
| Delivery.NoTokenNoMessage | scripts/bridge.js:68-100 | without a token nothing reaches the platform, not even the fallback text |
| Delivery.Plan | scripts/bridge.js:112-118 | the text comes first when non-empty, then one unit per image path in order; the placeholder comes alone exactly when there is neither |
| Delivery.PlanTextBeforeImages | scripts/bridge.js:113-117 | there is at most one text unit, and it comes before every image unit |
| Delivery.ReplyNeverSilent | scripts/bridge.js:112-118 | when a token can be obtained, every reply sends something to its user |
| Delivery.ReplyTextGoesFirst | scripts/bridge.js:113-114 | a reply with text posts that text before anything else |
| Delivery.Client.SendText | scripts/bridge.js:54-65 | the calls made are the text calls |
| Delivery.Client.SendImage | scripts/bridge.js:68-100 | the calls made are those of the image send's branches |
| Delivery.Client.SendImages | scripts/bridge.js:115 | the `for…of` loop makes the image sends of all paths, in order |
| Delivery.Client.SendParsed | scripts/bridge.js:113-117 | the calls made are the text part, then the images, then the placeholder part |
| Delivery.Client.SendReply | scripts/bridge.js:112-118 | the calls made are the dispatch of the parsed reply's plan |
| ReplyParser.FinalSpan | scripts/bridge.js:104 | no span iff no `<final>` is followed by a `</final>`; otherwise the body from the first `<final>` to the first `</final>` after it |
| ReplyParser.BodyEnd | scripts/bridge.js:106 | the lazy `(.*?)\]` stops at the first `]` and never crosses a line terminator |
| ReplyParser.MarkerAt | scripts/bridge.js:106 | a marker found at the front spells `[IMAGE:` + body + `]`, with a body free of `]` and line terminators |
| ReplyParser.ParseReply | scripts/bridge.js:103-109 | the result is the split of the working text; the text is trimmed; one path per marker |
| ReplyParser.RenderTokens | scripts/bridge.js:106-107 | the scan loses nothing: its tokens spell the text they were read from |
| ReplyParser.TokensOfRender | scripts/bridge.js:106-107 | rendering well-formed tokens and scanning the result gives the same tokens back |
| ReplyParser.SplitOfRender | scripts/bridge.js:106-107 | for any reading of a text as kept characters and markers where no kept character starts a marker (a `[` that opens none, as in `[1]`, is kept): the paths are the marker bodies, trimmed, left to right; the text is exactly the kept characters, trimmed |
| ReplyParser.TokensAreWellFormed | scripts/bridge.js:106-107 | every text has such a reading, its own scan, so the split statement covers every text the parser meets |
| ReplyParser.NoMarkersKeepText | scripts/bridge.js:105-107 | with no marker the text is the working text and there are no images |
| ReplyParser.EmptyMarkerGivesEmptyPath | scripts/bridge.js:106 | `[IMAGE:]` gives one empty path and no text |
| ReplyParser.OutsideFinalIgnored | scripts/bridge.js:104-105 | what surrounds the first `<final>…</final>` span never affects the working text |
| SessionLog.Find | scripts/bridge.js:127-133 | `find` returns a qualifying record of the list, or `None` iff none qualifies |
| SessionLog.FirstTextBlock | scripts/bridge.js:135 | the first block of type `text` |
| SessionLog.FindIsFirstLine | scripts/bridge.js:125-133 | malformed lines are skipped: the record found is the first line in file order that decodes to a qualifying record; none iff no line does |
| SessionLog.LatestReplyFromQualifying | scripts/bridge.js:121-142 | the reply is the first text block of the first qualifying record (assistant, strictly later than the cutoff), or none when no record qualifies |
| SessionLog.FirstInFileOrderNotLatest | scripts/bridge.js:127-133 | the earlier qualifying line is taken even when a later one has a later timestamp |
| SessionLog.ReadLatestReply | scripts/bridge.js:121-142 | the two loops (collect decodable lines, then `find`) compute the reader's result |
| SessionLog.SessionEntries | scripts/bridge.js:160 | exactly the entries whose names end in `.jsonl` |
| SessionLog.Newest | scripts/bridge.js:162 | the stable descending sort puts first the first entry of greatest mtime |
| SessionLog.LatestSessionFile | scripts/bridge.js:156-168 | a path is returned iff the directory reads, has `.jsonl` files and all of them stat; it is a `.jsonl` file with maximal mtime |
| SessionLog.NewerSessionChosen | scripts/bridge.js:158-163 | of two session files the newer wins, in either listing order |
| SessionLog.PairChoice | scripts/bridge.js:162-163 | of two files, ties go to the first listed |
| ReplyWaiter.Attempts | scripts/bridge.js:147 | the number of polls is `ceil(maxWaitMs / 1500)` |
| ReplyWaiter.DefaultBudgetIsFortyPolls | scripts/bridge.js:145-147 | sixty seconds is forty polls |
| ReplyWaiter.FirstHit | scripts/bridge.js:147-151 | the first poll whose read gives a non-empty reply |
| ReplyWaiter.WaitResultMeaning | scripts/bridge.js:145-153 | a reply returned is non-empty and read within the budget; none iff no poll of the budget found one |
| ReplyWaiter.WaitForReply | scripts/bridge.js:145-153 | the loop returns the first truthy reply, after that many polls, or none after all of them |
| Orchestration.Wake | scripts/bridge.js:176-179 | the wake request is of mode `now`, carries the bearer token, names the user and ends with the text |
| Orchestration.HandleMessage | scripts/bridge.js:171-206 | the handler ends in the outcome its steps decide and makes exactly that outcome's calls |
| Orchestration.FailuresAnsweredByTheirText | scripts/bridge.js:182-205 | a wake failure, a missing session file and a timeout each send exactly one text, each a different one |
| Orchestration.UserAlwaysAnswered | scripts/bridge.js:171-206 | whatever the outcome, the user hears back when a token can be obtained |
| Orchestration.RelayedReplyIsFresh | scripts/bridge.js:190-201 | a relayed reply is non-empty and comes from the newest session file, read on a poll within the budget, from an assistant record strictly later than the message |
| Orchestration.TimeoutAfterFortyEmptyPolls | scripts/bridge.js:198-205 | the timeout text is sent only after all forty polls came back empty |
| Webhook.InnerMessage | scripts/bridge.js:227-233 | a decrypted message exists only when the outer XML has a non-empty `Encrypt` that decrypts to an XML document with an `xml` root |
| Webhook.HandleRequest | scripts/bridge.js:209-247 | GET answers 200 with the decrypted `echostr` iff it decrypts, else 400; POST is always acknowledged, and a message is handed on iff it is a decryptable text message; other verbs get no answer |
| Webhook.HandoffFromInnerMessage | scripts/bridge.js:236-237 | the handed-on message carries the inner message's sender and content |
| Webhook.NonTextIgnored | scripts/bridge.js:240-242 | a message of another type is acknowledged and dropped |
| Webhook.UndecryptableIgnored | scripts/bridge.js:229-245 | a body whose `Encrypt` does not decrypt is acknowledged and dropped |
| Webhook.ValidationEchoes | scripts/bridge.js:213-217 | URL validation answers the decrypted `echostr`, whatever the body |
| JsonValue.Lookup | scripts/setup.js:87 | a property read finds a value iff the key is present, and the value is that member's |
| JsonValue.PutSets | scripts/setup.js:95-99 | assigning a property sets it |
| JsonValue.PutKeepsOthers | scripts/setup.js:95-99 | assigning a property leaves every other property as it was |
| JsonValue.PutKeys | scripts/setup.js:95-99 | the key order changes only by a new key going last |
| JsonValue.Spread | scripts/setup.js:96 | spreading a falsy value gives nothing; spreading an object gives its members |
| Setup.DottedQuadIff | scripts/setup.js:46-47 | an answer is accepted iff it is four groups of one to three digits joined by dots |
| Setup.OctetRangeUnchecked | scripts/setup.js:47 | octet values are not range-checked: `999.999.999.999` is accepted |
| Setup.DottedQuadChars | scripts/setup.js:47 | an accepted address is non-empty and made of digits and dots only |
| Setup.GetPublicIp | scripts/setup.js:28-57 | services are tried in the listed order; the address is the trimmed answer of the first service whose answer is accepted; none iff every service fails or is rejected, after all three were tried |
| Setup.CallbackUrlParts | scripts/setup.js:206-210 | the URL names the detected address, or the placeholder, and the configured port (default 3000), and both can be read back from it |
| Setup.FirstExistingIsFirst | scripts/setup.js:66-69 | the path found is the first existing one of the list; none iff none exists |
| Setup.FileSystem.DetectOpenClawHome | scripts/setup.js:60-70 | the loop returns the first existing candidate of `~/.openclaw`, `/root/.openclaw`, `/home/ubuntu/.openclaw` |
| Setup.FileSystem.ConfigureOpenClawJson | scripts/setup.js:73-104 | the outcome is the rule's decision on the loaded file; only a generated token writes the file, with the merged configuration; nothing else changes |
| Setup.MergeKeepsTopLevel | scripts/setup.js:95-99 | the merge keeps every other top-level key with its value, and keeps the key order |
| Setup.MergeSetsHooks | scripts/setup.js:95-99 | the new `hooks` has `enabled: true` and the fresh token |
| Setup.MergeKeepsHookFields | scripts/setup.js:95-99 | every other field of the old `hooks` survives |
| Setup.NonObjectConfigNotUpdated | scripts/setup.js:87-103 | a configuration that is not an object is written back unchanged, yet a new token is reported |
| Setup.SecondRunKeepsToken | scripts/setup.js:77-103 | when the JSON text round-trips, running the step again finds the token it wrote and keeps it |
| Setup.EnvOutcome | scripts/setup.js:153-163 | `.env` is written only when it does not exist and the template is a readable file |
| Setup.FirstTokenLine | scripts/setup.js:168 | the first place where `OPENCLAW_TOKEN=` starts a line, or none when no line starts with it |
| Setup.LineEnd | scripts/setup.js:168 | the greedy `.*$` stops at the next line terminator or at the end |
| Setup.TemplateVerbatim | scripts/setup.js:166-173 | without a truthy token, or without a token line, the template is copied verbatim |
| Setup.TokenLineFilled | scripts/setup.js:166-171 | a `$`-free token replaces exactly the first token line; the text before and after it is unchanged |
| Setup.DollarPatternExpanded | scripts/setup.js:167-170 | a token `$&` copies the old line into the new one |
| Setup.TokenLineHolds | scripts/setup.js:166-171 | the `.env` holds `OPENCLAW_TOKEN=` and the token where the old line began |
| Setup.EnvMatchesConfig | scripts/setup.js:196-202 | a freshly generated token ends up both in `openclaw.json` and in `.env` |
| Setup.FileSystem.CreateEnvFile | scripts/setup.js:149-178 | the outcome follows the existence checks; only a written `.env` changes the files, and it holds the rewritten template |
| Common.TrimDecomposes | scripts/bridge.js:105 | `trim` removes exactly a white-space prefix and a white-space suffix |
| Common.TrimIdempotent | scripts/bridge.js:107 | trimming twice is trimming once |

## Left out

- The WeCom cipher is a parameter, `decrypt`, applied to the ciphertext alone (scripts/bridge.js:215, 232). The bridge reads no `msg_signature`, `timestamp` or `nonce` and checks no signature. So a GET whose `echostr` decrypts gets 200 with the plaintext, and a POST whose `Encrypt` decrypts is handed on, whatever signature the request carries; `Webhook.HandleRequest` states exactly this. The AES decryption itself is not modelled.
- The XML parser is a parameter, `parseXml`, that returns the root's text fields.
- Webhook.HandleRequest: the XML parser's conversion of numeric text to numbers is not modelled. That conversion can make `Encrypt`, `MsgType`, `FromUserName` or `Content` a number rather than a string.
- Webhook.HandleRequest: a GET without `echostr` is treated as failing to decrypt. What the cipher does with `undefined` is not visible.
- Webhook.HandleRequest: the handler's answer for a HEAD request falls under "other verbs". Express routes HEAD to the same handler, and the handler never answers it.
- JSON text is outside the model:
  - the setup script's `JSON.parse` and `JSON.stringify` are parameters;
  - the session log's lines arrive already decoded (`None` for a malformed line).
- JsonValue: numbers are integers, so fractional and exponent numbers are not modelled. Objects are assumed to have no duplicate keys (`JSON.parse` would keep the last value in the first key's position).
- SessionLog.ReadLatestReply does not model these runtime errors:
  - three inputs make the `find` predicate throw a TypeError: a log line holding JSON `null` (`l.type`), a `content` that is not an array (`content.some`), and a `null` element of `content` (`c.type`, scripts/bridge.js:129-132);
  - the TypeError is thrown inside the readline `close` listener, outside the promise executor, and the bridge installs no `uncaughtException` handler, so it ends the whole bridge process and every message in flight is lost;
  - a non-string `text` field is not modelled either.
- SessionLog: `Date` parsing is not modelled. Timestamps are integers, and `None` stands for one that is missing or unreadable and never compares as later.
- SessionLog.LatestSessionFile: `path.join` is modelled only as joining with a single `/`. Path normalisation is left out.
- Network, HTTP and timers are outside the model:
  - the Express routing, axios and the multipart upload are replaced by the values of a `Delivery.Env`;
  - the 1500 ms poll interval and the 2000 ms grace pause are counted in ticks, not waited;
  - the three-second timeout of the public-IP requests is part of the `fetch` parameter.
- Delivery.Client: the `Env` answers are fixed for the client's lifetime:
  - every `gettoken` call gets the same answer;
  - each file's upload gets the same answer every time;
  - message posts fail, or not, all alike.
  `gettoken` requests themselves are not recorded as calls.
- Concurrency is not modelled:
  - the fire-and-forget `handleWecomMessage(...).catch`;
  - logs growing while they are read (only snapshots per tick);
  - two messages handled at once.
- Setup.GetPublicIp: the double `tryNext` after a timeout followed by a request error is not modelled. That sequence could skip a service or resolve twice.
- Config.ParseInt: integers are unbounded, so `parseInt`'s loss of precision beyond 2^53 is not modelled.
- Strings are sequences of Unicode characters rather than UTF-16 code units. This matters only for text outside the Basic Multilingual Plane.
- Setup.FileSystem: a failing `readFileSync` on `openclaw.json` is modelled only by the path being a directory. A failing `writeFileSync` in either step is not modelled.
- The random token (`crypto.randomBytes`) is an input, `freshToken`.
- Setup.FileSystem.ConfigureOpenClawJson: JSON `null` in `openclaw.json` makes the script throw; the model gives `Crashed`. The crash also stops the `.env` step, so `TokenForEnv` has no case for it.
- Left out together with the console output and `process.exit` in `main`:
  - `createWecomReplierSkill`, which writes a fixed `SKILL.md`;
  - `detectSessionsDir`, which is only a path join;
  - the setup script's ANSI-coloured logging.
