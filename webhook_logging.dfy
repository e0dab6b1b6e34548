/**
  The POST handler as written, where logging can change the reply.

  Every message is logged through `log_message(message)`, which formats it
  with `message % ()`. The messages are f-strings that interpolate the ref,
  the repository and pusher names, the tag, the manifest path, the run name,
  `kubectl`'s output and exception texts, so a `%` in any of them can make
  logging raise. The exception then takes the path of whatever `except`
  clause encloses the log call. `HandleAsWritten` follows those paths and
  yields the responses written to the socket, in order.

  `Webhook.Handle` is the handler as evidently intended, where logging never
  changes the reply; the lemmas here say when the two agree and show an input
  where they do not.
 */
module WebhookLogging {
  import opened PyStr
  import opened PyFormat
  import opened PipelineRun
  import opened Webhook

  // ----- the fixed parts of the log messages -----

  const TagDetectedPrefix: string := "\U{2705} Tag detected: "
  const TriggeredPrefix: string := "\U{2705} Pipeline triggered successfully for tag: "
  const TriggerFailedPrefix: string := "\U{274C} Failed to trigger pipeline for tag: "
  const IgnoringPrefix: string := "\U{23ED}\U{FE0F}  Ignoring non-tag push: "
  const JsonErrorPrefix: string := "\U{274C} JSON decode error: "
  const ProcessingErrorPrefix: string := "\U{274C} Error processing webhook: "
  const CreatedYamlPrefix: string := "\U{1F4DD} Created PipelineRun YAML: "
  const RunCreatedPrefix: string := "\U{2705} PipelineRun created: "
  const OutputPrefix: string := "\U{1F4CB} Output: "
  const CreateFailedPrefix: string := "\U{274C} Failed to create PipelineRun: "
  const TimedOutMessage: string := "\U{274C} kubectl command timed out"
  const TriggerErrorPrefix: string := "\U{274C} Error triggering pipeline: "

  /** The message logged on receipt of a push event. */
  function ReceivedMessage(event: PushEvent): string {
    "Received webhook: ref=" + Show(event.ref) + ", repo=" + Show(event.repoName)
    + ", pusher=" + Show(event.pusherName)
  }

  // ----- trigger_pipeline -----

  /** The `except Exception` clause of `trigger_pipeline`: it logs the
      exception and reports failure, unless logging the exception raises in
      turn, which leaves `trigger_pipeline` with that new exception. */
  function TriggerCaught(e: string): Result<bool> {
    match PercentFormat(TriggerErrorPrefix + e)
    case Ok(_) => Ok(false)
    case Err(m) => Err(m)
  }

  /** `trigger_pipeline` as written: `Ok(success)`, or `Err` with the text of an
      exception that escapes it. The file is written before the path is
      logged, and `kubectl` runs only after that. */
  function TriggerPipelineAsWritten(cfg: Config, tag: string, fx: Effects): Result<bool> {
    var path := TempFilePath(tag);
    match fx.write(path, RenderManifest(cfg, tag))
    case Some(e) => TriggerCaught(e)
    case None =>
      match PercentFormat(CreatedYamlPrefix + path)
      case Err(m) => TriggerCaught(m)
      case Ok(_) =>
        match fx.apply(path)
        case Exited(code, stdout, stderr) =>
          if code == 0 then
            match PercentFormat(RunCreatedPrefix + PipelineRunName(tag))
            case Err(m) => TriggerCaught(m)
            case Ok(_) =>
              match PercentFormat(OutputPrefix + Strip(stdout))
              case Err(m) => TriggerCaught(m)
              case Ok(_) => Ok(true)
          else
            (match PercentFormat(CreateFailedPrefix + stderr)
             case Err(m) => TriggerCaught(m)
             case Ok(_) => Ok(false))
        case TimedOut => Ok(false)  // the timed-out message is logged without fault
        case Raised(e) => TriggerCaught(e)
  }

  // ----- do_POST -----

  /** The `except Exception` clause of `do_POST`, after `sent` has been
      written: it logs the exception and sends 500 with its text, unless
      logging raises, which leaves `do_POST` with nothing more sent. */
  function Fault(sent: seq<Response>, e: string): seq<Response> {
    if PercentFormat(ProcessingErrorPrefix + e).Ok? then sent + [Response(500, Failure(e))] else sent
  }

  /** A tag push once its tag is known: the tag is logged, the pipeline
      triggered, the reply sent, and the outcome logged after the reply. */
  function TagPushAsWritten(cfg: Config, tag: string, fx: Effects): seq<Response> {
    match PercentFormat(TagDetectedPrefix + tag)
    case Err(m) => Fault([], m)
    case Ok(_) =>
      match TriggerPipelineAsWritten(cfg, tag, fx)
      case Err(m) => Fault([], m)
      case Ok(success) =>
        if success then
          var sent := [Response(200, Success(SuccessMessage(tag), tag))];
          (match PercentFormat(TriggeredPrefix + tag)
           case Err(m) => Fault(sent, m)
           case Ok(_) => sent)
        else
          var sent := [Response(500, Failure(TriggerFailedMessage))];
          match PercentFormat(TriggerFailedPrefix + tag)
          case Err(m) => Fault(sent, m)
          case Ok(_) => sent
  }

  /** The reply to a push event once it has been read and logged. */
  function RespondAsWritten(cfg: Config, ref: Json, fx: Effects): seq<Response> {
    match ref
    case JStr(r) =>
      if StartsWith(r, TagPrefix) then TagPushAsWritten(cfg, Replace(r, TagPrefix, ""), fx)
      else
        (match PercentFormat(IgnoringPrefix + r)
         case Err(m) => Fault([], m)
         case Ok(_) => [Response(200, Ignored(NotATagReason))])
    case _ => Fault([], NoAttribute(ref, "startswith"))
  }

  /** `do_POST` as written: the responses it writes, in order. An exception
      raised while logging inside the `except json.JSONDecodeError` clause is
      not caught by the `except Exception` clause beside it. */
  function HandleAsWritten(cfg: Config, payload: Payload, fx: Effects): seq<Response> {
    match payload
    case InvalidUtf8(e) => Fault([], e)
    case LoadFailed(e) => Fault([], e)
    case InvalidJson(e) =>
      (match PercentFormat(JsonErrorPrefix + e)
       case Err(_) => []
       case Ok(_) => [Response(400, Failure(InvalidJsonMessage))])
    case Decoded(data) =>
      match ReadEvent(data)
      case Err(m) => Fault([], m)
      case Ok(event) =>
        match PercentFormat(ReceivedMessage(event))
        case Err(m) => Fault([], m)
        case Ok(_) => RespondAsWritten(cfg, event.ref, fx)
  }

  // ----- what logging can and cannot change -----

  lemma PercentFreeConcat(a: string, b: string)
    requires '%' !in a && '%' !in b
    ensures '%' !in a + b
  {
    assert forall c :: c in a + b ==> c in a || c in b;
  }

  /** Text made of two `%`-free parts formats to itself. */
  lemma PercentFreeFormats(p: string, s: string)
    requires '%' !in p && '%' !in s
    ensures PercentFormat(p + s) == Ok(p + s)
  {
    PercentFreeConcat(p, s);
    FormatPercentFree(p + s);
  }

  /** The `AttributeError` texts hold no `%`. */
  lemma NoAttributeHasNoPercent(v: Json, attr: string)
    requires '%' !in attr
    ensures '%' !in NoAttribute(v, attr)
  {
    PercentFreeConcat("'", TypeName(v));
    PercentFreeConcat("'" + TypeName(v), "' object has no attribute '");
    PercentFreeConcat("'" + TypeName(v) + "' object has no attribute '", attr);
    PercentFreeConcat("'" + TypeName(v) + "' object has no attribute '" + attr, "'");
  }

  /** An exception whose text has no `%` is answered 500 with that text. */
  lemma FaultReplies(sent: seq<Response>, e: string)
    requires '%' !in e
    ensures Fault(sent, e) == sent + [Response(500, Failure(e))]
  {
    PercentFreeFormats(ProcessingErrorPrefix, e);
  }

  /** An exception escaping `trigger_pipeline` is a formatting error. */
  lemma TriggerEscapesOnlyFormatErrors(cfg: Config, tag: string, fx: Effects)
    ensures TriggerPipelineAsWritten(cfg, tag, fx).Err? ==>
              IsFormatError(TriggerPipelineAsWritten(cfg, tag, fx).message)
  {
  }

  /** A `%`-free prefix does not stop a text from formatting. */
  lemma FormatsAfterPrefix(p: string, s: string)
    requires '%' !in p && PercentFormat(s).Ok?
    ensures PercentFormat(p + s).Ok?
  {
    FormatAfterPercentFree(p, s);
  }

  /** Sanitising keeps every `%` where it was and makes none, so the
      sanitised tag formats when the tag does. */
  lemma SafeTagFormats(tag: string)
    requires PercentFormat(tag).Ok?
    ensures PercentFormat(SafeTag(tag)).Ok?
  {
    assert SamePercents(tag, SafeTag(tag)) by {
      SafeTagPerChar(tag);
    }
    FormatOkDependsOnlyOnPercents(tag, SafeTag(tag));
  }

  /** The manifest path and the run name are logged whenever the tag would be. */
  lemma DerivedNamesFormat(tag: string)
    requires PercentFormat(tag).Ok?
    ensures PercentFormat(CreatedYamlPrefix + TempFilePath(tag)).Ok?
    ensures PercentFormat(RunCreatedPrefix + PipelineRunName(tag)).Ok?
  {
    var safe := SafeTag(tag);
    SafeTagFormats(tag);
    assert PercentFormat(safe + TempPathSuffix).Ok? by {
      FormatPercentFree(TempPathSuffix);
      FormatConcat(safe, TempPathSuffix);
    }
    assert CreatedYamlPrefix + TempFilePath(tag) == (CreatedYamlPrefix + TempPathPrefix) + (safe + TempPathSuffix);
    FormatsAfterPrefix(CreatedYamlPrefix + TempPathPrefix, safe + TempPathSuffix);
    assert RunCreatedPrefix + PipelineRunName(tag) == (RunCreatedPrefix + RunNamePrefix) + safe;
    FormatsAfterPrefix(RunCreatedPrefix + RunNamePrefix, safe);
  }

  /** `trigger_pipeline` catches an exception whose text is a formatting
      error, logs it and reports failure. */
  lemma CaughtFormatError(m: string)
    requires IsFormatError(m)
    ensures TriggerCaught(m) == Ok(false)
  {
    FormatErrorsHaveNoPercent(m);
    PercentFreeFormats(TriggerErrorPrefix, m);
  }

  /** The text of the exception the effects raised for this tag, if any. */
  function EffectError(cfg: Config, tag: string, fx: Effects): Option<string> {
    var written := fx.write(TempFilePath(tag), RenderManifest(cfg, tag));
    var o := fx.apply(TempFilePath(tag));
    if written.Some? then Some(written.value)
    else if o.Raised? then Some(o.error)
    else None
  }

  /** `kubectl` applied the tag's manifest and its output is logged. */
  predicate AppliedAndLogged(cfg: Config, tag: string, fx: Effects) {
    Applies(cfg, tag, fx) && PercentFormat(OutputPrefix + Strip(fx.apply(TempFilePath(tag)).stdout)).Ok?
  }

  /** For a tag that formats, `trigger_pipeline` as written succeeds exactly
      when `kubectl` applied the manifest and its output formats; an
      exception from the effects is caught unless its text does not format. */
  lemma TriggerAsWrittenOutcome(cfg: Config, tag: string, fx: Effects)
    requires PercentFormat(tag).Ok?
    ensures TriggerPipelineAsWritten(cfg, tag, fx) ==
              if EffectError(cfg, tag, fx).Some? then TriggerCaught(EffectError(cfg, tag, fx).value)
              else Ok(AppliedAndLogged(cfg, tag, fx))
  {
    DerivedNamesFormat(tag);
    var o := fx.apply(TempFilePath(tag));
    if o.Exited? && o.code != 0 && PercentFormat(CreateFailedPrefix + o.stderr).Err? {
      CaughtFormatError(PercentFormat(CreateFailedPrefix + o.stderr).message);
    }
    if o.Exited? && o.code == 0 && PercentFormat(OutputPrefix + Strip(o.stdout)).Err? {
      CaughtFormatError(PercentFormat(OutputPrefix + Strip(o.stdout)).message);
    }
  }

  /** Once the tag has been logged, the reply to a tag push differs from the
      intended one in two ways only: `kubectl` applied the manifest but its
      output does not format, and the reply is 500 "Failed to trigger
      pipeline" instead of 200; or an exception from the effects does not
      format, and the reply is 500 with the formatting error's text. The
      messages logged after the reply always format. */
  lemma TagPushAsWrittenOutcome(cfg: Config, tag: string, fx: Effects)
    requires PercentFormat(TagDetectedPrefix + tag).Ok?
    ensures TagPushAsWritten(cfg, tag, fx) ==
              var e := EffectError(cfg, tag, fx);
              if e.Some? && TriggerCaught(e.value).Err? then
                [Response(500, Failure(TriggerCaught(e.value).message))]
              else if AppliedAndLogged(cfg, tag, fx) then
                [Response(200, Success(SuccessMessage(tag), tag))]
              else
                [Response(500, Failure(TriggerFailedMessage))]
  {
    assert PercentFormat(tag).Ok? by {
      FormatAfterPercentFree(TagDetectedPrefix, tag);
    }
    FormatsAfterPrefix(TriggeredPrefix, tag);
    FormatsAfterPrefix(TriggerFailedPrefix, tag);
    TriggerAsWrittenOutcome(cfg, tag, fx);
    var e := EffectError(cfg, tag, fx);
    if e.Some? && TriggerCaught(e.value).Err? {
      FormatErrorsHaveNoPercent(TriggerCaught(e.value).message);
      FaultReplies([], TriggerCaught(e.value).message);
    }
  }

  /** As written, every request is still answered exactly once: no log
      message that follows an exception, and no message logged after the
      reply to a tag push, can itself fail once the tag has been logged. */
  lemma RepliesExactlyOnce(cfg: Config, payload: Payload, fx: Effects)
    ensures |HandleAsWritten(cfg, payload, fx)| == 1
  {
    match payload
    case InvalidUtf8(e) =>
      FaultReplies([], e);
    case LoadFailed(e) =>
      FaultReplies([], e);
    case InvalidJson(e) =>
      PercentFreeFormats(JsonErrorPrefix, e);
    case Decoded(data) =>
      match ReadEvent(data)
      case Err(m) =>
        ReadEventSpec(data);
        assert exists v: Json :: m == NoAttribute(v, "get");
        var v: Json :| m == NoAttribute(v, "get");
        NoAttributeHasNoPercent(v, "get");
        FaultReplies([], m);
      case Ok(event) =>
        match PercentFormat(ReceivedMessage(event))
        case Err(m) =>
          FormatErrorsHaveNoPercent(m);
          FaultReplies([], m);
        case Ok(_) =>
          match event.ref
          case JStr(r) =>
            if StartsWith(r, TagPrefix) {
              var tag := Replace(r, TagPrefix, "");
              if PercentFormat(TagDetectedPrefix + tag).Err? {
                FormatErrorsHaveNoPercent(PercentFormat(TagDetectedPrefix + tag).message);
                FaultReplies([], PercentFormat(TagDetectedPrefix + tag).message);
              } else {
                TagPushAsWrittenOutcome(cfg, tag, fx);
              }
            } else if PercentFormat(IgnoringPrefix + r).Err? {
              FormatErrorsHaveNoPercent(PercentFormat(IgnoringPrefix + r).message);
              FaultReplies([], PercentFormat(IgnoringPrefix + r).message);
            }
          case _ =>
            NoAttributeHasNoPercent(event.ref, "startswith");
            FaultReplies([], NoAttribute(event.ref, "startswith"));
  }

  /** The exception texts of the effects for this tag, and `kubectl`'s
      output, hold no `%`. */
  predicate QuietEffects(cfg: Config, tag: string, fx: Effects) {
    var o := fx.apply(TempFilePath(tag));
    (EffectError(cfg, tag, fx).Some? ==> '%' !in EffectError(cfg, tag, fx).value)
    && (o.Exited? ==> '%' !in o.stdout)
  }

  /** The texts the handler logs for this request and its effects hold no
      `%`: the ref and the names shown on receipt, and for a tag push the
      exception texts of the effects and `kubectl`'s output. */
  predicate PercentFreeTexts(cfg: Config, payload: Payload, fx: Effects) {
    (payload.Decoded? && ReadEvent(payload.data).Ok? ==>
       '%' !in ReceivedMessage(ReadEvent(payload.data).value))
    && (PushedTag(payload).Some? ==> QuietEffects(cfg, PushedTag(payload).value, fx))
  }

  /** A `%`-free ref shown on receipt is `%`-free itself. */
  lemma RefPercentFree(event: PushEvent)
    requires '%' !in ReceivedMessage(event)
    ensures '%' !in Show(event.ref)
  {
    var received := ReceivedMessage(event);
    assert received == "Received webhook: ref=" + Show(event.ref) + (", repo=" + Show(event.repoName)
                       + ", pusher=" + Show(event.pusherName));
    assert forall c :: c in Show(event.ref) ==> c in received;
  }

  /** With quiet effects, an exception from them is caught and reported as
      failure. */
  lemma QuietEffectErrorCaught(cfg: Config, tag: string, fx: Effects)
    requires QuietEffects(cfg, tag, fx)
    ensures EffectError(cfg, tag, fx).Some? ==> TriggerCaught(EffectError(cfg, tag, fx).value) == Ok(false)
  {
    var e := EffectError(cfg, tag, fx);
    if e.Some? {
      PercentFreeFormats(TriggerErrorPrefix, e.value);
    }
  }

  /** Output without `%` is logged. */
  lemma PercentFreeOutputLogged(out: string)
    requires '%' !in out
    ensures PercentFormat(OutputPrefix + Strip(out)).Ok?
  {
    PercentFreeFormats(OutputPrefix, Strip(out));
  }

  /** With quiet effects, `kubectl`'s output is logged. */
  lemma QuietOutputLogged(cfg: Config, tag: string, fx: Effects)
    requires QuietEffects(cfg, tag, fx)
    ensures Applies(cfg, tag, fx) ==> AppliedAndLogged(cfg, tag, fx)
  {
    if Applies(cfg, tag, fx) {
      var out := fx.apply(TempFilePath(tag)).stdout;
      PercentFreeOutputLogged(out);
    }
  }

  /** A `%`-free tag pushed with quiet effects gets the intended reply. */
  lemma AgreesOnTagPush(cfg: Config, tag: string, fx: Effects)
    requires '%' !in tag
    requires QuietEffects(cfg, tag, fx)
    ensures TagPushAsWritten(cfg, tag, fx) ==
              [if TriggerPipeline(cfg, tag, fx) then Response(200, Success(SuccessMessage(tag), tag))
               else Response(500, Failure(TriggerFailedMessage))]
  {
    PercentFreeFormats(TagDetectedPrefix, tag);
    TagPushAsWrittenOutcome(cfg, tag, fx);
    TriggerPipelineSpec(cfg, tag, fx);
    QuietEffectErrorCaught(cfg, tag, fx);
    QuietOutputLogged(cfg, tag, fx);
  }

  /** A ref whose text has no `%`, pushed with quiet effects when it names a
      tag, gets the intended reply. */
  lemma AgreesOnRef(cfg: Config, ref: Json, fx: Effects)
    requires '%' !in Show(ref)
    requires ref.JStr? && StartsWith(ref.s, TagPrefix) ==>
               QuietEffects(cfg, Replace(ref.s, TagPrefix, ""), fx)
    ensures RespondAsWritten(cfg, ref, fx) == [Respond(cfg, ref, fx)]
  {
    match ref
    case JStr(r) =>
      if StartsWith(r, TagPrefix) {
        var tag := Replace(r, TagPrefix, "");
        assert '%' !in tag by {
          ReplaceChars(r, TagPrefix, "");
        }
        AgreesOnTagPush(cfg, tag, fx);
      } else {
        PercentFreeFormats(IgnoringPrefix, r);
      }
    case _ =>
      NoAttributeHasNoPercent(ref, "startswith");
      FaultReplies([], NoAttribute(ref, "startswith"));
  }

  /** When nothing logged holds a `%`, the handler as written sends exactly
      the intended reply. */
  lemma AgreesWhenPercentFree(cfg: Config, payload: Payload, fx: Effects)
    requires PercentFreeTexts(cfg, payload, fx)
    ensures HandleAsWritten(cfg, payload, fx) == [Handle(cfg, payload, fx)]
  {
    match payload
    case InvalidUtf8(e) =>
      FaultReplies([], e);
    case LoadFailed(e) =>
      FaultReplies([], e);
    case InvalidJson(e) =>
      PercentFreeFormats(JsonErrorPrefix, e);
    case Decoded(data) =>
      match ReadEvent(data)
      case Err(m) =>
        ReadEventSpec(data);
        var v: Json :| m == NoAttribute(v, "get");
        NoAttributeHasNoPercent(v, "get");
        FaultReplies([], m);
      case Ok(event) =>
        FormatPercentFree(ReceivedMessage(event));
        RefPercentFree(event);
        AgreesOnRef(cfg, event.ref, fx);
  }

  /** A `%` followed by a comma, after text without `%`, cannot be formatted
      without arguments. */
  lemma PercentBeforeComma(front: string, back: string)
    requires '%' !in front
    requires |back| >= 2 && back[0] == '%' && back[1] == ','
    ensures PercentFormat(front + back) == Err(NotEnoughArguments)
  {
    FormatAfterPercentFree(front, back);
    var spec := back[1..];
    assert spec[0] == ',' && DropFlags(spec) == spec;
    assert SpecError(spec) == ConversionError(spec) == NotEnoughArguments;
  }

  /** An event whose receipt message does not format is answered 500 with
      the formatting error, whatever it holds. */
  lemma ReceiptFailureReplies(cfg: Config, data: Json, fx: Effects)
    requires ReadEvent(data).Ok?
    requires PercentFormat(ReceivedMessage(ReadEvent(data).value)).Err?
    ensures var m := PercentFormat(ReceivedMessage(ReadEvent(data).value)).message;
      HandleAsWritten(cfg, Decoded(data), fx) == [Response(500, Failure(m))]
  {
    var m := PercentFormat(ReceivedMessage(ReadEvent(data).value)).message;
    FormatErrorsHaveNoPercent(m);
    FaultReplies([], m);
  }

  lemma ReadRefOnly(r: string, shown: string)
    ensures ReadEvent(JDict(map["ref" := JStr(r)], shown))
              == Ok(PushEvent(JStr(r), JStr("unknown"), JStr("unknown")))
  {
    var data := JDict(map["ref" := JStr(r)], shown);
    assert Get(data, "ref", JStr("")) == Ok(JStr(r));
    assert Get(data, "repository", EmptyDict) == Ok(EmptyDict);
    assert Get(data, "pusher", EmptyDict) == Ok(EmptyDict);
  }

  lemma PercentEndingRefLog(r: string)
    requires |r| >= 1 && r[|r| - 1] == '%' && '%' !in r[..|r| - 1]
    ensures PercentFormat(ReceivedMessage(PushEvent(JStr(r), JStr("unknown"), JStr("unknown"))))
              == Err(NotEnoughArguments)
  {
    var head, p := "Received webhook: ref=", r[..|r| - 1];
    var rest := ", repo=" + "unknown" + ", pusher=" + "unknown";
    var back := "%" + rest;
    assert r == p + "%";
    assert ReceivedMessage(PushEvent(JStr(r), JStr("unknown"), JStr("unknown"))) == head + r + rest;
    assert head + r + rest == (head + p) + back;
    assert back[0] == '%' && back[1] == ',';
    PercentFreeConcat(head, p);
    PercentBeforeComma(head + p, back);
  }

  /** A push of a branch whose name ends in its only `%` is answered 500 as
      written, because the receipt message does not format, where the
      intended reply is 200 "ignored". */
  lemma PercentEndingRefFails(cfg: Config, r: string, shown: string, fx: Effects)
    requires !StartsWith(r, TagPrefix)
    requires |r| >= 1 && r[|r| - 1] == '%' && '%' !in r[..|r| - 1]
    ensures var payload := Decoded(JDict(map["ref" := JStr(r)], shown));
      && HandleAsWritten(cfg, payload, fx) == [Response(500, Failure(NotEnoughArguments))]
      && Handle(cfg, payload, fx) == Response(200, Ignored(NotATagReason))
  {
    var data := JDict(map["ref" := JStr(r)], shown);
    ReadRefOnly(r, shown);
    PercentEndingRefLog(r);
    ReceiptFailureReplies(cfg, data, fx);
  }

  /** The branch `refs/heads/100%` is such a push. */
  lemma PercentInRefExample(cfg: Config, fx: Effects)
    ensures var payload := Decoded(JDict(map["ref" := JStr("refs/heads/100%")], "{...}"));
      && HandleAsWritten(cfg, payload, fx) == [Response(500, Failure(NotEnoughArguments))]
      && Handle(cfg, payload, fx) == Response(200, Ignored(NotATagReason))
  {
    var r := "refs/heads/100%";
    assert !StartsWith(r, TagPrefix) by {
      assert r[5] != TagPrefix[5];
    }
    assert r[..|r| - 1] == "refs/heads/100";
    PercentEndingRefFails(cfg, r, "{...}", fx);
  }

  /** A tag push whose receipt message has no `%` reaches the tag-push path. */
  lemma ReachesTagPush(cfg: Config, payload: Payload, fx: Effects)
    requires PushedTag(payload).Some?
    requires '%' !in ReceivedMessage(ReadEvent(payload.data).value)
    ensures HandleAsWritten(cfg, payload, fx) == TagPushAsWritten(cfg, PushedTag(payload).value, fx)
    ensures '%' !in PushedTag(payload).value
  {
    var event := ReadEvent(payload.data).value;
    FormatPercentFree(ReceivedMessage(event));
    RefPercentFree(event);
    ReplaceChars(event.ref.s, TagPrefix, "");
  }

  /** When `kubectl` applies the manifest of a `%`-free tag but its output
      does not format, the reply as written is 500 "Failed to trigger
      pipeline", although the PipelineRun was created. */
  lemma UnloggableOutputFails(cfg: Config, tag: string, fx: Effects)
    requires '%' !in tag
    requires Applies(cfg, tag, fx)
    requires PercentFormat(OutputPrefix + Strip(fx.apply(TempFilePath(tag)).stdout)).Err?
    ensures TagPushAsWritten(cfg, tag, fx) == [Response(500, Failure(TriggerFailedMessage))]
    ensures TriggerPipeline(cfg, tag, fx)
  {
    PercentFreeFormats(TagDetectedPrefix, tag);
    TagPushAsWrittenOutcome(cfg, tag, fx);
    TriggerPipelineSpec(cfg, tag, fx);
  }

  /** Output that ends in its only `%` cannot be logged: the format ends in
      the middle of a conversion. */
  lemma TrailingPercentUnloggable(out: string)
    requires out != [] && !IsSpace(out[0]) && out[|out| - 1] == '%'
    requires '%' !in out[..|out| - 1]
    ensures PercentFormat(OutputPrefix + Strip(out)) == Err(Incomplete)
  {
    StripUnpadded(out);
    var p := out[..|out| - 1];
    assert OutputPrefix + out == (OutputPrefix + p) + "%";
    PercentFreeFormats(OutputPrefix, p);
    FormatConcat(OutputPrefix + p, "%");
  }

  /** A tag push that `kubectl` applies, printing `100%`, is answered 500
      "Failed to trigger pipeline" as written, although the PipelineRun was
      created; the intended reply is 200. */
  lemma PercentInOutputExample(cfg: Config, payload: Payload, fx: Effects)
    requires PushedTag(payload).Some?
    requires '%' !in ReceivedMessage(ReadEvent(payload.data).value)
    requires Applies(cfg, PushedTag(payload).value, fx)
    requires fx.apply(TempFilePath(PushedTag(payload).value)).stdout == "100%"
    ensures HandleAsWritten(cfg, payload, fx) == [Response(500, Failure(TriggerFailedMessage))]
    ensures var tag := PushedTag(payload).value;
      Handle(cfg, payload, fx) == Response(200, Success(SuccessMessage(tag), tag))
  {
    var tag := PushedTag(payload).value;
    ReachesTagPush(cfg, payload, fx);
    var out := fx.apply(TempFilePath(tag)).stdout;
    assert out[..|out| - 1] == "100";
    TrailingPercentUnloggable(out);
    UnloggableOutputFails(cfg, tag, fx);
    HandleOutcomes(cfg, payload, fx);
  }
}
