/**
  The POST handler of the webhook listener: from the decoded push event to the
  HTTP status and JSON body sent back. Nothing is read from a socket or
  written to disk here: the decoded body is an input (`Payload`), and writing
  the manifest file and running `kubectl` are the two functions of an
  `Effects` value, consulted only for their outcome.

  `Handle` is the handler with logging taken to have no effect on the reply;
  module WebhookLogging models the handler as written, where it does.
 */
module Webhook {
  import opened PyStr
  import opened PipelineRun

  const TagPrefix: string := "refs/tags/"

  // ----- classifying the pushed ref -----

  datatype Decision = Ignore | Tag(tag: string)

  /** A ref is a tag push when it starts with `refs/tags/`; its tag is then the
      ref with EVERY occurrence of `refs/tags/` removed (`str.replace`). */
  function Classify(ref: string): Decision {
    if StartsWith(ref, TagPrefix) then Tag(Replace(ref, TagPrefix, "")) else Ignore
  }

  /** A ref is classified as a tag push exactly when it starts with the prefix;
      its tag is then shorter than the ref by ten characters for each
      occurrence of the prefix that was removed, and there is at least one. */
  lemma ClassifySpec(ref: string)
    ensures Classify(ref).Tag? <==> StartsWith(ref, TagPrefix)
    ensures Classify(ref).Tag? ==>
              && Count(ref, TagPrefix) >= 1
              && |Classify(ref).tag| == |ref| - |TagPrefix| * Count(ref, TagPrefix)
              && |Classify(ref).tag| <= |ref| - |TagPrefix|
  {
    if StartsWith(ref, TagPrefix) {
      ReplaceLength(ref, TagPrefix, "");
      assert ref[..|TagPrefix|] == TagPrefix;
    }
  }

  /** When the prefix occurs only at the start, the tag is what follows it, and
      putting the prefix back gives the ref. */
  lemma TagIsSuffixWhenPrefixOccursOnce(ref: string)
    requires StartsWith(ref, TagPrefix)
    requires !Occurs(ref[|TagPrefix|..], TagPrefix)
    ensures Classify(ref) == Tag(ref[|TagPrefix|..])
    ensures TagPrefix + Classify(ref).tag == ref
  {
    var rest := ref[|TagPrefix|..];
    assert ref == TagPrefix + rest;
    ReplaceLeading(rest, TagPrefix, "");
    ReplaceAbsent(rest, TagPrefix, "");
  }

  /** Every occurrence is removed, not just the leading one: the ref
      `refs/tags/refs/tags/v1` is the tag `v1`. */
  lemma TagRemovesEveryOccurrence()
    ensures Classify("refs/tags/refs/tags/v1") == Tag("v1")
  {
    var ref := "refs/tags/refs/tags/v1";
    assert ref == TagPrefix + (TagPrefix + "v1");
    ReplaceLeading(TagPrefix + "v1", TagPrefix, "");
    ReplaceLeading("v1", TagPrefix, "");
  }

  /** Removing occurrences can splice a new one together, so a tag can itself
      start with the prefix. */
  lemma TagMayStartWithPrefix()
    ensures Classify(TagPrefix + "refs/ta" + TagPrefix + "gs/v1") == Tag("refs/tags/v1")
  {
    var front, rest := "refs/ta", "gs/v1";
    assert TagPrefix + front + TagPrefix + rest == TagPrefix + (front + (TagPrefix + rest));
    ReplaceLeading(front + (TagPrefix + rest), TagPrefix, "");
    assert !Occurs(rest, TagPrefix);
    ReplaceAfterFront(front, rest);
    assert front + rest == "refs/tags/v1";
  }

  /** A front part shorter than the prefix, followed by one occurrence and a
      rest without any, loses just that occurrence. */
  lemma ReplaceAfterFront(front: string, rest: string)
    requires 0 < |front| < |TagPrefix|
    requires !Occurs(rest, TagPrefix)
    ensures Replace(front + (TagPrefix + rest), TagPrefix, "") == front + rest
  {
    var t := TagPrefix + rest;
    assert Replace(t, TagPrefix, "") == rest by {
      ReplaceLeading(rest, TagPrefix, "");
      ReplaceAbsent(rest, TagPrefix, "");
    }
    assert forall k :: 0 <= k < |front| ==> !StartsWith(front[k..] + t, TagPrefix) by {
      assert t[0] == 'r';
      NoOccurrenceBefore(front, t);
    }
    ReplaceKeepsFront(front, t, TagPrefix, "");
  }

  /** No occurrence of the prefix starts inside a front part shorter than the
      prefix, when what follows it starts with an `r` the prefix does not
      have at that position. */
  lemma NoOccurrenceBefore(front: string, t: string)
    requires 0 < |front| < |TagPrefix| && t != [] && t[0] == 'r'
    ensures forall k :: 0 <= k < |front| ==> !StartsWith(front[k..] + t, TagPrefix)
  {
    forall k | 0 <= k < |front|
      ensures !StartsWith(front[k..] + t, TagPrefix)
    {
      var u := front[k..] + t;
      var i := |front| - k;
      assert |TagPrefix| == 10 && i < 10;
      assert u[i] == t[0];
      if |u| >= |TagPrefix| {
        assert u[..|TagPrefix|][i] != TagPrefix[i];
      }
    }
  }

  // ----- the decoded request -----

  /** Python types a decoded JSON value other than `str` and `dict` can have. */
  datatype PyType = NoneType | Bool | Int | Float | List

  /** A value produced by `json.loads`. A `str` and a `dict` are modelled; of
      every other value only its type and its `str()` text matter here. */
  datatype Json =
    | JStr(s: string)
    | JDict(fields: map<string, Json>, shown: string)
    | JOther(ty: PyType, shown: string)

  function TypeName(v: Json): string {
    match v
    case JStr(_) => "str"
    case JDict(_, _) => "dict"
    case JOther(ty, _) =>
      match ty
      case NoneType => "NoneType"
      case Bool => "bool"
      case Int => "int"
      case Float => "float"
      case List => "list"
  }

  /** `str(v)`, as an f-string interpolates it. */
  function Show(v: Json): string {
    match v
    case JStr(s) => s
    case JDict(_, shown) => shown
    case JOther(_, shown) => shown
  }

  /** The text of the `AttributeError` raised by `v.attr` when `v` lacks it. */
  function NoAttribute(v: Json, attr: string): string {
    "'" + TypeName(v) + "' object has no attribute '" + attr + "'"
  }

  /** `v.get(key, default)`: only a `dict` has `get`. */
  function Get(v: Json, key: string, default: Json): (r: Result<Json>)
    ensures r.Ok? <==> v.JDict?
    ensures r.Ok? ==> r.value == if key in v.fields then v.fields[key] else default
    ensures r.Err? ==> r.message == NoAttribute(v, "get")
  {
    match v
    case JDict(fields, _) => Ok(if key in fields then fields[key] else default)
    case _ => Err(NoAttribute(v, "get"))
  }

  /** What the handler reads from a push event. */
  datatype PushEvent = PushEvent(ref: Json, repoName: Json, pusherName: Json)

  const EmptyDict: Json := JDict(map[], "{}")

  /** The five `get` calls that read the ref, the repository name and the
      pusher name, in the order the handler makes them; the first that is
      made on something other than a `dict` raises. */
  function ReadEvent(data: Json): Result<PushEvent> {
    match Get(data, "ref", JStr(""))
    case Err(m) => Err(m)
    case Ok(ref) =>
      match Get(data, "repository", EmptyDict)
      case Err(m) => Err(m)
      case Ok(repository) =>
        match Get(repository, "name", JStr("unknown"))
        case Err(m) => Err(m)
        case Ok(repoName) =>
          match Get(data, "pusher", EmptyDict)
          case Err(m) => Err(m)
          case Ok(pusher) =>
            match Get(pusher, "name", JStr("unknown"))
            case Err(m) => Err(m)
            case Ok(pusherName) => Ok(PushEvent(ref, repoName, pusherName))
  }

  /** A member of a decoded object that the handler calls `get` on: absent, or
      itself an object. */
  predicate GettableMember(fields: map<string, Json>, key: string) {
    key !in fields || fields[key].JDict?
  }

  /** Reading the event succeeds exactly when the body is an object whose
      `repository` and `pusher` members are absent or objects; a missing `ref`
      reads as the empty string. */
  lemma ReadEventSpec(data: Json)
    ensures ReadEvent(data).Ok? <==>
              data.JDict? && GettableMember(data.fields, "repository") && GettableMember(data.fields, "pusher")
    ensures ReadEvent(data).Ok? ==>
              ReadEvent(data).value.ref == if "ref" in data.fields then data.fields["ref"] else JStr("")
    ensures ReadEvent(data).Err? ==> StartsWith(ReadEvent(data).message, "'")
    ensures !data.JDict? ==> ReadEvent(data) == Err(NoAttribute(data, "get"))
    ensures data.JDict? && !GettableMember(data.fields, "repository") ==>
              ReadEvent(data) == Err(NoAttribute(data.fields["repository"], "get"))
    ensures data.JDict? && GettableMember(data.fields, "repository")
            && !GettableMember(data.fields, "pusher") ==>
              ReadEvent(data) == Err(NoAttribute(data.fields["pusher"], "get"))
  {
    if ReadEvent(data).Err? {
      var m := ReadEvent(data).message;
      assert exists v: Json :: m == NoAttribute(v, "get");
    }
  }

  /** The body of the request, as far as decoding it goes. */
  datatype Payload =
    | InvalidUtf8(error: DecodeErrorText)   // `bytes.decode('utf-8')` raised
    | InvalidJson(reason: JsonErrorText)    // `json.loads` raised `JSONDecodeError`
    | LoadFailed(cause: LoadErrorText)      // `json.loads` raised anything else
    | Decoded(data: Json)

  const Utf8ErrorPrefix: string := "'utf-8' codec can't decode "

  /** The text of a `UnicodeDecodeError` raised by decoding UTF-8: it names
      the codec, then the offending bytes (as hexadecimal), their position and
      the reason, none of which includes a `%`. */
  type DecodeErrorText = s: string | StartsWith(s, Utf8ErrorPrefix) && '%' !in s
    witness Utf8ErrorPrefix

  /** The text of a `JSONDecodeError`: what was expected, and the line, column
      and offset where it was not found, never a `%`. */
  type JsonErrorText = s: string | '%' !in s

  /** The text of another exception `json.loads` can raise on a body it
      cannot decode: a `RecursionError` for arrays nested too deeply, or a
      `ValueError` for an integer literal with too many digits. Both are fixed
      messages with numbers in them, never a `%`, and neither is the text of
      the trigger's failure. */
  type LoadErrorText = s: string | '%' !in s && s != TriggerFailedMessage

  // ----- triggering the pipeline -----

  /** What came of running `kubectl apply -f <path>` with a ten-second
      timeout. */
  datatype ExecOutcome =
    | Exited(code: int, stdout: string, stderr: string)
    | TimedOut                 // `subprocess.TimeoutExpired`
    | Raised(error: string)    // `kubectl` could not be started, ...

  /** The two effects of triggering a pipeline: `write(path, text)` writes the
      manifest file and gives the text of the exception it raised, if any;
      `apply(path)` runs `kubectl` on it. */
  datatype Effects = Effects(write: (string, string) -> Option<string>, apply: string -> ExecOutcome)

  predicate Applied(o: ExecOutcome) {
    o.Exited? && o.code == 0
  }

  /** The tag's manifest was written to its path and `kubectl` applied it. */
  predicate Applies(cfg: Config, tag: string, fx: Effects) {
    fx.write(TempFilePath(tag), RenderManifest(cfg, tag)).None? && Applied(fx.apply(TempFilePath(tag)))
  }

  /** `trigger_pipeline`: writes the tag's manifest to the tag's path, applies
      that file and reports whether `kubectl` exited with 0; every exception is
      caught and reported as failure. */
  function TriggerPipeline(cfg: Config, tag: string, fx: Effects): bool {
    var path := TempFilePath(tag);
    match fx.write(path, RenderManifest(cfg, tag))
    case Some(_) => false
    case None =>
      match fx.apply(path)
      case Exited(code, _, _) => code == 0
      case TimedOut => false
      case Raised(_) => false
  }

  /** The trigger succeeds exactly when the manifest was written and `kubectl`
      exited with 0; a failed write, a non-zero exit, a timeout and an
      exception from `subprocess.run` all count as failure. */
  lemma TriggerPipelineSpec(cfg: Config, tag: string, fx: Effects)
    ensures TriggerPipeline(cfg, tag, fx) <==> Applies(cfg, tag, fx)
    ensures var o := fx.apply(TempFilePath(tag));
      (fx.write(TempFilePath(tag), RenderManifest(cfg, tag)).Some?
       || o.TimedOut? || o.Raised? || (o.Exited? && o.code != 0)) ==> !TriggerPipeline(cfg, tag, fx)
  {
  }

  // ----- the reply -----

  datatype Body =
    | Success(message: string, tag: string)   // {"status": "success", "message": ..., "tag": ...}
    | Ignored(reason: string)                 // {"status": "ignored", "reason": ...}
    | Failure(message: string)                // {"status": "error", "message": ...}

  /** The `status` member of the JSON body. */
  function StatusField(b: Body): string {
    match b
    case Success(_, _) => "success"
    case Ignored(_) => "ignored"
    case Failure(_) => "error"
  }

  datatype Response = Response(status: int, body: Body)

  const InvalidJsonMessage: string := "Invalid JSON"
  const TriggerFailedMessage: string := "Failed to trigger pipeline"
  const NotATagReason: string := "not a tag"

  function SuccessMessage(tag: string): string {
    "Pipeline triggered for tag: " + tag
  }

  /** The reply to a push event once it has been read. */
  function Respond(cfg: Config, ref: Json, fx: Effects): Response {
    match ref
    case JStr(r) =>
      (match Classify(r)
       case Ignore => Response(200, Ignored(NotATagReason))
       case Tag(tag) =>
         if TriggerPipeline(cfg, tag, fx) then Response(200, Success(SuccessMessage(tag), tag))
         else Response(500, Failure(TriggerFailedMessage)))
    case _ => Response(500, Failure(NoAttribute(ref, "startswith")))
  }

  /** `do_POST`, with log messages taken to be written as they are. */
  function Handle(cfg: Config, payload: Payload, fx: Effects): Response {
    match payload
    case InvalidUtf8(error) => Response(500, Failure(error))
    case InvalidJson(_) => Response(400, Failure(InvalidJsonMessage))
    case LoadFailed(cause) => Response(500, Failure(cause))
    case Decoded(data) =>
      match ReadEvent(data)
      case Err(m) => Response(500, Failure(m))
      case Ok(event) => Respond(cfg, event.ref, fx)
  }

  // ----- what the reply means -----

  /** The tag of a well-formed tag push, and nothing for any other request. */
  function PushedTag(payload: Payload): Option<string> {
    if payload.Decoded? && ReadEvent(payload.data).Ok? then
      match ReadEvent(payload.data).value.ref
      case JStr(r) => (match Classify(r) case Tag(t) => Some(t) case Ignore => None)
      case _ => None
    else None
  }

  /** Every request gets exactly one of five replies: 400 "Invalid JSON" for a
      body that is not JSON; 200 "ignored" for a well-formed push that is not a
      tag push; 200 "success", naming the tag, when its manifest was written and
      applied; 500 "Failed to trigger pipeline" when it was not; and 500
      carrying the exception's text for everything else. */
  lemma HandleOutcomes(cfg: Config, payload: Payload, fx: Effects)
    ensures var r := Handle(cfg, payload, fx);
      && (r.status == 200 || r.status == 400 || r.status == 500)
      && (r.status == 400 <==> payload.InvalidJson?)
      && (r.status == 400 ==> r.body == Failure(InvalidJsonMessage))
      && (r.status == 200 <==> r.body.Success? || r.body.Ignored?)
      && (r.status == 500 <==> r.body.Failure? && !payload.InvalidJson?)
      && (r.body.Ignored? <==> payload.Decoded? && ReadEvent(payload.data).Ok?
                               && ReadEvent(payload.data).value.ref.JStr? && PushedTag(payload).None?)
      && (r.body.Ignored? ==> r.body.reason == NotATagReason)
      && (r.body.Success? <==> PushedTag(payload).Some? && Applies(cfg, PushedTag(payload).value, fx))
      && (r.body.Success? ==> r.body.tag == PushedTag(payload).value
                              && r.body.message == SuccessMessage(r.body.tag))
      && (r == Response(500, Failure(TriggerFailedMessage)) <==>
            PushedTag(payload).Some? && !Applies(cfg, PushedTag(payload).value, fx))
      && (payload.InvalidUtf8? ==> r == Response(500, Failure(payload.error)))
      && (payload.LoadFailed? ==> r == Response(500, Failure(payload.cause)))
      && (payload.Decoded? && ReadEvent(payload.data).Err? ==>
            r == Response(500, Failure(ReadEvent(payload.data).message)))
      && (payload.Decoded? && ReadEvent(payload.data).Ok? && !ReadEvent(payload.data).value.ref.JStr? ==>
            r == Response(500, Failure(NoAttribute(ReadEvent(payload.data).value.ref, "startswith"))))
      && (StatusField(r.body) == "error" <==> r.status != 200)
  {
    var r := Handle(cfg, payload, fx);
    match payload
    case InvalidUtf8(error) =>
      assert error[0] != TriggerFailedMessage[0];
    case InvalidJson(_) =>
    case LoadFailed(_) =>
    case Decoded(data) =>
      ReadEventSpec(data);
      match ReadEvent(data)
      case Err(m) =>
        assert m != TriggerFailedMessage by {
          assert m[0] == '\'';
        }
      case Ok(event) =>
        match event.ref
        case JStr(ref) =>
          if StartsWith(ref, TagPrefix) {
            TriggerPipelineSpec(cfg, Replace(ref, TagPrefix, ""), fx);
          }
        case _ =>
          var m := NoAttribute(event.ref, "startswith");
          assert m[0] != TriggerFailedMessage[0];
  }

  /** A request that is not a well-formed tag push writes no file and runs no
      `kubectl`: its reply is the same whatever the effects would do. For a tag
      push the reply depends only on whether that tag's manifest is written to
      that tag's path and applied. */
  lemma EffectsOnlyForTagPush(cfg: Config, payload: Payload, e1: Effects, e2: Effects)
    requires PushedTag(payload).Some? ==>
               Applies(cfg, PushedTag(payload).value, e1) == Applies(cfg, PushedTag(payload).value, e2)
    ensures Handle(cfg, payload, e1) == Handle(cfg, payload, e2)
  {
    if payload.Decoded? && ReadEvent(payload.data).Ok? {
      var ref := ReadEvent(payload.data).value.ref;
      if ref.JStr? && StartsWith(ref.s, TagPrefix) {
        TriggerPipelineSpec(cfg, Replace(ref.s, TagPrefix, ""), e1);
        TriggerPipelineSpec(cfg, Replace(ref.s, TagPrefix, ""), e2);
      }
    }
  }

  /** An object without `ref` (and without `repository` or `pusher` members that
      are not objects) is a push to the empty ref: it is ignored. */
  lemma MissingRefIsIgnored(cfg: Config, fields: map<string, Json>, shown: string, fx: Effects)
    requires "ref" !in fields
    requires GettableMember(fields, "repository") && GettableMember(fields, "pusher")
    ensures Handle(cfg, Decoded(JDict(fields, shown)), fx) == Response(200, Ignored(NotATagReason))
  {
    ReadEventSpec(JDict(fields, shown));
    assert !StartsWith("", TagPrefix);
  }

  /** The reply to a tag push is 200 "success" naming the tag exactly when
      its manifest was written and applied, and 500 "Failed to trigger
      pipeline" otherwise. */
  lemma TagPushReply(cfg: Config, payload: Payload, fx: Effects, tag: string)
    requires PushedTag(payload) == Some(tag)
    ensures Handle(cfg, payload, fx) ==
              if Applies(cfg, tag, fx) then Response(200, Success(SuccessMessage(tag), tag))
              else Response(500, Failure(TriggerFailedMessage))
  {
    HandleOutcomes(cfg, payload, fx);
  }

  /** A push of `refs/tags/v2.0.0` to the repository `demo` is the tag push of
      `v2.0.0`. */
  lemma ExampleTagPush(data: Json)
    requires data == JDict(map["ref" := JStr("refs/tags/v2.0.0"),
                               "repository" := JDict(map["name" := JStr("demo")], "{'name': 'demo'}")],
                           "{...}")
    ensures ReadEvent(data) == Ok(PushEvent(JStr("refs/tags/v2.0.0"), JStr("demo"), JStr("unknown")))
    ensures PushedTag(Decoded(data)) == Some("v2.0.0")
  {
    var ref := "refs/tags/v2.0.0";
    var repository := JDict(map["name" := JStr("demo")], "{'name': 'demo'}");
    assert Get(data, "ref", JStr("")) == Ok(JStr(ref));
    assert Get(data, "repository", EmptyDict) == Ok(repository);
    assert Get(data, "pusher", EmptyDict) == Ok(EmptyDict);
    assert ReadEvent(data).value.ref == JStr(ref);
    assert ref == TagPrefix + "v2.0.0" && ref[|TagPrefix|..] == "v2.0.0";
    TagIsSuffixWhenPrefixOccursOnce(ref);
  }

  /** That push is answered 200 with the tag `v2.0.0` when the manifest is
      written and `kubectl` exits with 0, and 500 otherwise. */
  lemma TagPushExample(cfg: Config, data: Json, fx: Effects)
    requires data == JDict(map["ref" := JStr("refs/tags/v2.0.0"),
                               "repository" := JDict(map["name" := JStr("demo")], "{'name': 'demo'}")],
                           "{...}")
    ensures Handle(cfg, Decoded(data), fx) ==
              if Applies(cfg, "v2.0.0", fx) then Response(200, Success("Pipeline triggered for tag: v2.0.0", "v2.0.0"))
              else Response(500, Failure("Failed to trigger pipeline"))
  {
    ExampleTagPush(data);
    TagPushReply(cfg, Decoded(data), fx, "v2.0.0");
    assert SuccessMessage("v2.0.0") == "Pipeline triggered for tag: v2.0.0";
  }

  /** A body that is not a JSON object is answered 500 with the
      `AttributeError` of its first `get`. */
  lemma NonObjectBodyExample(cfg: Config, fx: Effects)
    ensures var list := JOther(List, "[]");
      && TypeName(list) == "list"
      && Handle(cfg, Decoded(list), fx) == Response(500, Failure(NoAttribute(list, "get")))
  {
  }

  /** A well-formed event whose ref is not a string is answered 500 with the
      `AttributeError` of its `startswith`. */
  lemma NonStringRefFails(cfg: Config, data: Json, fx: Effects)
    requires ReadEvent(data).Ok? && !ReadEvent(data).value.ref.JStr?
    ensures Handle(cfg, Decoded(data), fx)
              == Response(500, Failure(NoAttribute(ReadEvent(data).value.ref, "startswith")))
  {
  }

  /** A `repository` member that is not an object is answered 500 with the
      `AttributeError` of the `get` on it. */
  lemma NonObjectRepositoryExample(cfg: Config, name: string, shown: string, fx: Effects)
    ensures var data := JDict(map["repository" := JStr(name)], shown);
      Handle(cfg, Decoded(data), fx) == Response(500, Failure(NoAttribute(JStr(name), "get")))
  {
    var data := JDict(map["repository" := JStr(name)], shown);
    assert Get(data, "ref", JStr("")) == Ok(JStr(""));
    assert Get(data, "repository", EmptyDict) == Ok(JStr(name));
  }
}
