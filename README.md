# Tekton tutorial webhook listener, modelled in Dafny

The tutorial's webhook listener receives GitHub push events over HTTP. When the
pushed ref names a tag, it writes a Tekton `PipelineRun` manifest for that tag to
a temporary file. It then applies the file with `kubectl` and answers with a JSON
body whose HTTP status says what happened.

This project models the decisions in that listener and proves what they
guarantee:

- **Which pushes are tag pushes, and what their tag is.** `Webhook.Classify` says
  which refs are tag pushes. The tag is the ref with every `refs/tags/` removed,
  exactly as `str.replace` computes it (`PyStr.Replace`).
- **Names derived from the tag.** The tag is sanitised (`PipelineRun.SafeTag`). The
  PipelineRun name and the temporary path are built from the sanitised tag.
- **The manifest.** `PipelineRun.RenderManifest` renders it. A small line reader
  proves what a consumer reads back from it.
- **Whether triggering succeeded** (`Webhook.TriggerPipeline`). Writing the file
  and running `kubectl` are not performed. They are the two functions of an
  `Effects` value, and only their outcome is consulted.
- **The reply to every POST** (`Webhook.Handle`): its status and body, over every
  shape a decoded body can have. That includes bodies that are not objects, a
  `repository` that is not an object, and a `ref` that is not a string.
- **Logging that can change the reply** (module `WebhookLogging`). Every message
  goes through `log_message`, which formats it with `message % ()`.
  `PyFormat.PercentFormat` models Python's `%` operator with no arguments.
  `WebhookLogging.HandleAsWritten` follows every exception that `%` formatting
  can raise to the `except` clause that catches it.
  - The lemmas there prove that every request is still answered exactly once.
  - They also prove that the handler as written agrees with `Webhook.Handle`
    whenever the logged texts hold no `%`.
  - They exhibit requests where it does not (see Findings).

Files, in dependency order:

- `py_str.dfy`: Python's `startswith`, `replace`, ASCII `lower` and `strip`.
- `py_format.dfy`: `fmt % ()`.
- `pipeline_run.dfy`: configuration, sanitisation, derived names, the manifest.
- `webhook.dfy`: the decoded event, the trigger, the reply.
- `webhook_logging.dfy`: the handler as written, including its logging.

Behaviours of the code worth knowing, all modelled as written:

- A body that is not valid UTF-8 raises `UnicodeDecodeError`. That is not a
  `JSONDecodeError`, so the reply is 500 with the decoder's message, not 400.
- A body on which `json.loads` raises anything other than `JSONDecodeError`,
  such as a `RecursionError` for arrays nested too deeply, is also answered 500
  with the exception's text (`Payload.LoadFailed`).
- The tag is the ref with every occurrence of `refs/tags/` removed, not just the
  leading one.

## Model

| member | source | states |
|---|---|---|
| `PyStr.StartsWith` | documentation/tekton-tutorial-example/webhook-server.py:51 | `str.startswith`: the text begins with the prefix; stated by `Webhook.ClassifySpec` and `Webhook.TagIsSuffixWhenPrefixOccursOnce` |
| `PyStr.Replace` | documentation/tekton-tutorial-example/webhook-server.py:52 | `str.replace`: occurrences found left to right without overlap, each replaced; no contract of its own, stated by the lemmas below |
| `PyStr.Count` | documentation/tekton-tutorial-example/webhook-server.py:52 | the number of occurrences `replace` replaces; no contract of its own, stated by the lemmas below |
| `PyStr.ReplaceLength` | documentation/tekton-tutorial-example/webhook-server.py:52 | `replace` changes the length by one `len(rep) - len(pat)` per non-overlapping occurrence counted by `Count` |
| `PyStr.CountPositiveIffOccurs` | documentation/tekton-tutorial-example/webhook-server.py:52 | `replace` finds at least one occurrence exactly when the pattern occurs somewhere in the text |
| `PyStr.ReplaceAbsent` | documentation/tekton-tutorial-example/webhook-server.py:52 | text in which the pattern does not occur is left unchanged by `replace` |
| `PyStr.ReplaceLeading` | documentation/tekton-tutorial-example/webhook-server.py:52 | a leading occurrence is replaced and the scan resumes right after it |
| `PyStr.ReplaceNoLeading` | documentation/tekton-tutorial-example/webhook-server.py:52 | a first character that starts no occurrence is kept |
| `PyStr.ReplaceKeepsFront` | documentation/tekton-tutorial-example/webhook-server.py:52 | a front part in which no occurrence starts is kept in front of the replaced rest |
| `PyStr.ReplaceChars` | documentation/tekton-tutorial-example/webhook-server.py:52 | every character of the result comes from the text or from the replacement |
| `PyStr.ReplaceOneChar` | documentation/tekton-tutorial-example/webhook-server.py:103 | replacing one character by another keeps the length and changes exactly the positions holding that character |
| `PyStr.LowerChar` | documentation/tekton-tutorial-example/webhook-server.py:103 | the result is never an ASCII capital; a capital moves down by 32 and every other character is kept |
| `PyStr.Lower` | documentation/tekton-tutorial-example/webhook-server.py:103 | `lower()` keeps the length and lowercases position by position |
| `PyStr.LeadingSpaces` | documentation/tekton-tutorial-example/webhook-server.py:157 | the number of leading white-space characters: all characters before it are white space, and the one at it is not |
| `PyStr.TrailingSpaces` | documentation/tekton-tutorial-example/webhook-server.py:157 | the number of trailing white-space characters: all characters after the end less it are white space, and the one before them is not |
| `PyStr.StripLeft` | documentation/tekton-tutorial-example/webhook-server.py:157 | `lstrip()` is the suffix left after dropping only white space, and it starts with none |
| `PyStr.StripRight` | documentation/tekton-tutorial-example/webhook-server.py:157 | `rstrip()` is the prefix left after dropping only white space, and it ends with none |
| `PyStr.Strip` | documentation/tekton-tutorial-example/webhook-server.py:157 | `strip()` is the slice of its input that starts after the leading white space; only white space lies outside it, and it neither starts nor ends with white space |
| `PyStr.StripIsBothSides` | documentation/tekton-tutorial-example/webhook-server.py:157 | `strip()` equals `rstrip()` applied to what `lstrip()` leaves |
| `PyStr.StripUnpadded` | documentation/tekton-tutorial-example/webhook-server.py:157 | text that neither starts nor ends with white space is left unchanged by `strip()` |
| `PyFormat.DropFlags` | documentation/tekton-tutorial-example/webhook-server.py:23 | parsing the flags drops exactly the leading flag characters: the rest is a suffix that starts with no flag |
| `PyFormat.DigitRun` | documentation/tekton-tutorial-example/webhook-server.py:23 | the number of leading digits: all characters before it are digits, and the one at it is not |
| `PyFormat.DigitsValueAtLeast` | documentation/tekton-tutorial-example/webhook-server.py:23 | appending digits to a number never makes it smaller |
| `PyFormat.SkipNumber` | documentation/tekton-tutorial-example/webhook-server.py:23 | parsing a width or precision skips exactly the leading digits when their value stays within the limit, and fails with its own "too big" error exactly when that value passes the limit |
| `PyFormat.ConversionError` | documentation/tekton-tutorial-example/webhook-server.py:23 | a conversion reached with no arguments left is "incomplete format" or "not enough arguments for format string" |
| `PyFormat.SpecError` | documentation/tekton-tutorial-example/webhook-server.py:23 | every conversion other than `%%` raises one of Python's five formatting errors |
| `PyFormat.PercentFormat` | documentation/tekton-tutorial-example/webhook-server.py:23 | `format % ()` fails only with one of those five errors |
| `PyFormat.FormatEscaped` | documentation/tekton-tutorial-example/webhook-server.py:23 | formatting with no arguments undoes doubling every `%` |
| `PyFormat.FormatSucceedsOnlyOnEscaped` | documentation/tekton-tutorial-example/webhook-server.py:23 | a format succeeds only when it is its result with every `%` doubled |
| `PyFormat.FormatPercentFree` | documentation/tekton-tutorial-example/webhook-server.py:23 | text without `%` formats to itself |
| `PyFormat.FormatAfterPercentFree` | documentation/tekton-tutorial-example/webhook-server.py:23 | a `%`-free prefix changes neither whether a text formats nor the error it raises |
| `PyFormat.FormatErrorsHaveNoPercent` | documentation/tekton-tutorial-example/webhook-server.py:23 | no formatting error text holds a `%` |
| `PyFormat.FormatConcat` | documentation/tekton-tutorial-example/webhook-server.py:23 | after a part that formats, the concatenation formats as the rest does |
| `PyFormat.FormatSplit` | documentation/tekton-tutorial-example/webhook-server.py:23 | a concatenation that formats, cut before a character that is not `%`, has two parts that format |
| `PyFormat.FormatOkDependsOnlyOnPercents` | documentation/tekton-tutorial-example/webhook-server.py:23 | whether a text formats depends only on where its `%` signs are |
| `PipelineRun.LoadConfig` | documentation/tekton-tutorial-example/webhook-server.py:14 | the DockerHub user name is the environment's `DOCKERHUB_USERNAME`, or the placeholder when it is unset |
| `PipelineRun.SafeTag` | documentation/tekton-tutorial-example/webhook-server.py:103 | `tag.replace('.', '-').replace('_', '-').lower()`; no contract of its own, stated by the `SafeTag` lemmas |
| `PipelineRun.PipelineRunName` | documentation/tekton-tutorial-example/webhook-server.py:104 | `build-and-push-` then the sanitised tag; stated by `DerivedNamesShape` |
| `PipelineRun.TempFilePath` | documentation/tekton-tutorial-example/webhook-server.py:141 | `/tmp/pipelinerun-`, the sanitised tag, `.yaml`; stated by `DerivedNamesShape` |
| `PipelineRun.ManifestLines` | documentation/tekton-tutorial-example/webhook-server.py:107-138 | the template's lines, with the run name, the tag and the configuration filled in; stated by `ManifestReadBack` |
| `PipelineRun.RenderManifest` | documentation/tekton-tutorial-example/webhook-server.py:107-138 | those lines, each followed by a line break; stated by `ManifestReadBack` |
| `PipelineRun.SafeTagPerChar` | documentation/tekton-tutorial-example/webhook-server.py:103 | the sanitised tag has the tag's length and sanitises it character by character |
| `PipelineRun.SafeTagShape` | documentation/tekton-tutorial-example/webhook-server.py:103 | the sanitised tag keeps the length and holds no `.`, `_` or ASCII capital; other characters are kept apart from lowercasing |
| `PipelineRun.SafeTagIdempotent` | documentation/tekton-tutorial-example/webhook-server.py:103 | sanitising twice gives the same result as sanitising once |
| `PipelineRun.SafeTagsEqualIff` | documentation/tekton-tutorial-example/webhook-server.py:103 | two tags sanitise alike exactly when they have the same length and agree position by position up to `.`/`_`/`-` and ASCII case |
| `PipelineRun.SafeTagExample` | documentation/tekton-tutorial-example/webhook-server.py:103-104 | `v1.2_3` becomes `v1-2-3` and the run `build-and-push-v1-2-3` |
| `PipelineRun.DerivedNamesShape` | documentation/tekton-tutorial-example/webhook-server.py:103-141 | the run name is `build-and-push-` then the sanitised tag; the path is `/tmp/pipelinerun-`, the sanitised tag, then `.yaml` |
| `PipelineRun.DerivedNamesCollideIff` | documentation/tekton-tutorial-example/webhook-server.py:103-141 | two tags share a run name, and share a path, exactly when they sanitise alike |
| `PipelineRun.DistinctTagsCollide` | documentation/tekton-tutorial-example/webhook-server.py:103-141 | the distinct tags `v1.0`, `v1_0` and `V1.0` share one run name and one path |
| `PipelineRun.NewlineIndex` | documentation/tekton-tutorial-example/webhook-server.py:107-138 | the reader finds the first line break, or the end of the text |
| `PipelineRun.SplitLinesCons` | documentation/tekton-tutorial-example/webhook-server.py:107-138 | splitting a line followed by a line break gives that line, then the rest split |
| `PipelineRun.SplitJoinLines` | documentation/tekton-tutorial-example/webhook-server.py:107-138 | splitting joined lines gives the lines back when none holds a line break |
| `PipelineRun.ManifestLinesHaveNoLineBreaks` | documentation/tekton-tutorial-example/webhook-server.py:107-138 | no template line holds a line break once the tag and the user name hold none |
| `PipelineRun.ManifestMetadata` | documentation/tekton-tutorial-example/webhook-server.py:109-113 | the manifest's `name:` is the run name and its `tag:` label is the tag |
| `PipelineRun.ParamEntries` | documentation/tekton-tutorial-example/webhook-server.py:118-128 | the parameters are `git-tag` and `image-tag` set to the tag, the image name, the user name, and an empty password |
| `PipelineRun.ManifestParam` | documentation/tekton-tutorial-example/webhook-server.py:107-138 | the first entry of each parameter is the one in the parameter list |
| `PipelineRun.ManifestReadBack` | documentation/tekton-tutorial-example/webhook-server.py:107-138 | read back line by line, the rendered manifest holds the run name, the tag label, `git-tag` and `image-tag` equal to the tag, the image and user names, and an empty password |
| `Webhook.Classify` | documentation/tekton-tutorial-example/webhook-server.py:51-52 | a tag push when the ref starts with `refs/tags/`, its tag being the ref with every occurrence removed; stated by `ClassifySpec` |
| `Webhook.ClassifySpec` | documentation/tekton-tutorial-example/webhook-server.py:51-52 | a ref is a tag push exactly when it starts with `refs/tags/`; the tag then loses ten characters per occurrence removed, with at least one removed |
| `Webhook.TagIsSuffixWhenPrefixOccursOnce` | documentation/tekton-tutorial-example/webhook-server.py:51-52 | when the prefix occurs only at the start, the tag is the rest of the ref, and prefix plus tag gives the ref back |
| `Webhook.TagRemovesEveryOccurrence` | documentation/tekton-tutorial-example/webhook-server.py:52 | `refs/tags/refs/tags/v1` is the tag `v1` |
| `Webhook.TagMayStartWithPrefix` | documentation/tekton-tutorial-example/webhook-server.py:52 | removing occurrences can splice a new one together: the tag of `refs/tags/refs/tarefs/tags/gs/v1` is `refs/tags/v1` |
| `Webhook.ReplaceAfterFront` | documentation/tekton-tutorial-example/webhook-server.py:52 | a short front part, one occurrence and an occurrence-free rest lose just that occurrence |
| `Webhook.NoOccurrenceBefore` | documentation/tekton-tutorial-example/webhook-server.py:52 | no occurrence of the prefix starts inside a short front part followed by an `r` |
| `Webhook.NoAttribute` | documentation/tekton-tutorial-example/webhook-server.py:42-51 | the text of the `AttributeError` a missing `get` or `startswith` raises, naming the type and the attribute; stated by `ReadEventSpec`, `HandleOutcomes` and `WebhookLogging.NoAttributeHasNoPercent` |
| `Webhook.Get` | documentation/tekton-tutorial-example/webhook-server.py:42-46 | `get` succeeds exactly on an object, giving the member or the default; on anything else it raises the `AttributeError` for `get` |
| `Webhook.ReadEvent` | documentation/tekton-tutorial-example/webhook-server.py:42-46 | the five `get` calls in the handler's order, the first failing one raising; stated by `ReadEventSpec` |
| `Webhook.ReadEventSpec` | documentation/tekton-tutorial-example/webhook-server.py:42-46 | reading succeeds exactly on an object whose `repository` and `pusher` are absent or objects; a missing `ref` reads as `""`; a body that is not an object fails with the `AttributeError` of its `get`, and so does a `repository`, then a `pusher`, that is not an object |
| `Webhook.TriggerPipeline` | documentation/tekton-tutorial-example/webhook-server.py:99-168 | write the manifest, apply it, and map the outcome to a bool; stated by `TriggerPipelineSpec` |
| `Webhook.TriggerPipelineSpec` | documentation/tekton-tutorial-example/webhook-server.py:99-168 | the trigger succeeds exactly when the manifest was written and `kubectl` exited with 0; a write error, a non-zero exit, a timeout or an exception gives false |
| `Webhook.Respond` | documentation/tekton-tutorial-example/webhook-server.py:51-84 | the reply once the event is read: ignored, success, failure, or the `startswith` error; stated by `HandleOutcomes` |
| `Webhook.Handle` | documentation/tekton-tutorial-example/webhook-server.py:33-97 | `do_POST` with logging taken to have no effect, including a body on which `json.loads` raises something other than `JSONDecodeError`; stated by `HandleOutcomes` and `TagPushReply` |
| `Webhook.HandleOutcomes` | documentation/tekton-tutorial-example/webhook-server.py:38-97 | every reply is 200, 400 or 500: 400 "Invalid JSON" exactly for a JSON error; "ignored" exactly for a well-formed non-tag push; "success" naming the tag exactly when the tag's manifest was applied; "Failed to trigger pipeline" exactly when it was not; invalid UTF-8, any other exception from `json.loads`, a failed `get` and a ref that is not a string are answered 500 with that exception's text; the `status` member is "error" exactly when the status is not 200 |
| `Webhook.EffectsOnlyForTagPush` | documentation/tekton-tutorial-example/webhook-server.py:51-84 | the reply to anything but a tag push does not depend on the effects, and for a tag push it depends only on whether that tag's manifest was applied |
| `Webhook.MissingRefIsIgnored` | documentation/tekton-tutorial-example/webhook-server.py:42-84 | an object without `ref` is ignored with 200 "not a tag" |
| `Webhook.TagPushReply` | documentation/tekton-tutorial-example/webhook-server.py:56-78 | a tag push is answered 200 "success" with the tag when its manifest was applied, and 500 "Failed to trigger pipeline" otherwise |
| `Webhook.ExampleTagPush` | documentation/tekton-tutorial-example/webhook-server.py:42-52 | a push of `refs/tags/v2.0.0` to `demo` reads as that event with pusher `unknown`, and is the tag push of `v2.0.0` |
| `Webhook.TagPushExample` | documentation/tekton-tutorial-example/webhook-server.py:56-78 | that push is answered 200 "Pipeline triggered for tag: v2.0.0" when applied, and 500 otherwise |
| `Webhook.NonObjectBodyExample` | documentation/tekton-tutorial-example/webhook-server.py:42 | a JSON list is answered 500 with `'list' object has no attribute 'get'` |
| `Webhook.NonStringRefFails` | documentation/tekton-tutorial-example/webhook-server.py:51 | a ref that is not a string is answered 500 with the `AttributeError` of `startswith` |
| `Webhook.NonObjectRepositoryExample` | documentation/tekton-tutorial-example/webhook-server.py:43-44 | a `repository` that is a string is answered 500 with the `AttributeError` of its `get` |
| `WebhookLogging.ReceivedMessage` | documentation/tekton-tutorial-example/webhook-server.py:48 | the receipt message shows the ref, the repository name and the pusher name; stated by `RefPercentFree` and `PercentEndingRefLog` |
| `WebhookLogging.TriggerCaught` | documentation/tekton-tutorial-example/webhook-server.py:166-168 | the `except Exception` clause of `trigger_pipeline` logs the exception and reports failure; stated by `CaughtFormatError` and `QuietEffectErrorCaught` |
| `WebhookLogging.TriggerPipelineAsWritten` | documentation/tekton-tutorial-example/webhook-server.py:99-168 | `trigger_pipeline` with its four log calls and its `except` clauses; stated by `TriggerAsWrittenOutcome` |
| `WebhookLogging.TagPushAsWritten` | documentation/tekton-tutorial-example/webhook-server.py:53-78 | a tag push with the log calls before and after the reply; stated by `TagPushAsWrittenOutcome` |
| `WebhookLogging.RespondAsWritten` | documentation/tekton-tutorial-example/webhook-server.py:51-84 | the reply to a read event, logging included; stated by `AgreesOnRef` |
| `WebhookLogging.Fault` | documentation/tekton-tutorial-example/webhook-server.py:92-97 | the `except Exception` clause of `do_POST` logs the exception and sends 500 with its text; stated by `FaultReplies` |
| `WebhookLogging.HandleAsWritten` | documentation/tekton-tutorial-example/webhook-server.py:33-97 | `do_POST` as written, the responses it writes in order; stated by `RepliesExactlyOnce` and `AgreesWhenPercentFree` |
| `WebhookLogging.PercentFreeFormats` | documentation/tekton-tutorial-example/webhook-server.py:20-23 | a message made of two `%`-free parts is logged as it is |
| `WebhookLogging.NoAttributeHasNoPercent` | documentation/tekton-tutorial-example/webhook-server.py:92-97 | an `AttributeError` text for a `%`-free attribute holds no `%` |
| `WebhookLogging.FaultReplies` | documentation/tekton-tutorial-example/webhook-server.py:92-97 | an exception whose text holds no `%` is logged and answered 500 with that text |
| `WebhookLogging.TriggerEscapesOnlyFormatErrors` | documentation/tekton-tutorial-example/webhook-server.py:163-168 | the only exceptions that escape `trigger_pipeline` are formatting errors |
| `WebhookLogging.FormatsAfterPrefix` | documentation/tekton-tutorial-example/webhook-server.py:53 | a text that formats still formats after a `%`-free log prefix |
| `WebhookLogging.SafeTagFormats` | documentation/tekton-tutorial-example/webhook-server.py:103 | sanitising keeps a tag that formats formatting |
| `WebhookLogging.DerivedNamesFormat` | documentation/tekton-tutorial-example/webhook-server.py:145-156 | for a tag that formats, the path and run-name log messages format too |
| `WebhookLogging.CaughtFormatError` | documentation/tekton-tutorial-example/webhook-server.py:166-168 | a formatting error raised inside `trigger_pipeline` is logged and reported as failure |
| `WebhookLogging.TriggerAsWrittenOutcome` | documentation/tekton-tutorial-example/webhook-server.py:99-168 | for a tag that formats, `trigger_pipeline` as written handles an exception from the effects through its `except` clause, and otherwise succeeds exactly when the manifest was applied and `kubectl`'s output formats |
| `WebhookLogging.TagPushAsWrittenOutcome` | documentation/tekton-tutorial-example/webhook-server.py:53-78 | once the tag is logged, the reply as written is exactly one response: 500 with a formatting error that escaped the trigger, 200 "success" when applied and logged, or 500 "Failed to trigger pipeline" |
| `WebhookLogging.RepliesExactlyOnce` | documentation/tekton-tutorial-example/webhook-server.py:33-97 | as written, every POST writes exactly one response |
| `WebhookLogging.RefPercentFree` | documentation/tekton-tutorial-example/webhook-server.py:48 | a `%`-free receipt message shows a `%`-free ref |
| `WebhookLogging.QuietEffectErrorCaught` | documentation/tekton-tutorial-example/webhook-server.py:166-168 | a `%`-free exception from the effects is caught and reported as failure |
| `WebhookLogging.PercentFreeOutputLogged` | documentation/tekton-tutorial-example/webhook-server.py:157 | `%`-free `kubectl` output is logged |
| `WebhookLogging.QuietOutputLogged` | documentation/tekton-tutorial-example/webhook-server.py:155-158 | with `%`-free effects, an applied manifest is also logged |
| `WebhookLogging.AgreesOnTagPush` | documentation/tekton-tutorial-example/webhook-server.py:53-78 | a `%`-free tag pushed with `%`-free effects gets the intended reply, exactly once |
| `WebhookLogging.AgreesOnRef` | documentation/tekton-tutorial-example/webhook-server.py:51-84 | a `%`-free ref gets the intended reply, exactly once |
| `WebhookLogging.AgreesWhenPercentFree` | documentation/tekton-tutorial-example/webhook-server.py:33-97 | when the logged texts hold no `%`, the handler as written writes exactly the intended reply |
| `WebhookLogging.PercentBeforeComma` | documentation/tekton-tutorial-example/webhook-server.py:23 | a `%` followed by a comma raises "not enough arguments for format string" |
| `WebhookLogging.ReceiptFailureReplies` | documentation/tekton-tutorial-example/webhook-server.py:48 | an event whose receipt message does not format is answered 500 with the formatting error |
| `WebhookLogging.ReadRefOnly` | documentation/tekton-tutorial-example/webhook-server.py:42-46 | an object with only a `ref` reads as that ref, with repository and pusher `unknown` |
| `WebhookLogging.PercentEndingRefLog` | documentation/tekton-tutorial-example/webhook-server.py:48 | the receipt message of a ref ending in its only `%` raises "not enough arguments for format string" |
| `WebhookLogging.PercentEndingRefFails` | documentation/tekton-tutorial-example/webhook-server.py:48 | such a branch push is answered 500 as written, where the intended reply is 200 "ignored" |
| `WebhookLogging.PercentInRefExample` | documentation/tekton-tutorial-example/webhook-server.py:48 | the branch `refs/heads/100%` is answered 500 as written and 200 "ignored" as intended |
| `WebhookLogging.ReachesTagPush` | documentation/tekton-tutorial-example/webhook-server.py:48-53 | a tag push whose receipt message has no `%` reaches the tag-push path with a `%`-free tag |
| `WebhookLogging.UnloggableOutputFails` | documentation/tekton-tutorial-example/webhook-server.py:157 | an applied manifest whose output does not format is answered 500 as written, although the trigger succeeded |
| `WebhookLogging.TrailingPercentUnloggable` | documentation/tekton-tutorial-example/webhook-server.py:157 | output ending in its only `%` raises "incomplete format" when logged |
| `WebhookLogging.PercentInOutputExample` | documentation/tekton-tutorial-example/webhook-server.py:157 | a tag push whose `kubectl` prints `100%` is answered 500 as written and 200 "success" as intended |

## Left out

- HTTP transport is not modelled: the server, reading `Content-Length` and the
  body, headers, and encoding the reply. A reply is a status and a `Body` value.
  `do_GET` and `main`, with its banner and `PORT`, are not modelled either.
- `json.loads` and `json.dumps` are not modelled. The decoded body is a `Payload`.
  A decoded value is a string, an object, or a value of another Python type,
  known only by its type name and its `str()` text.
- The texts of `JSONDecodeError`, `UnicodeDecodeError` and the other exceptions
  `json.loads` raises (`RecursionError` for arrays nested too deeply, `ValueError`
  for an integer literal with too many digits) are assumed to hold no
  `%`. Python writes them from fixed messages, positions and hexadecimal bytes.
- Writing the temporary file and running `kubectl apply` with a ten-second
  timeout are the two functions of an `Effects` value. The wall clock and the
  foreign process are not modelled.
- Timestamps and the printing in `log_message` are left out. Only its `%`
  formatting, which can raise, is modelled.
- `print` in `log_message` can raise as well. It raises for a lone surrogate,
  which `json.loads` produces from `"\ud800"`, and for text that standard
  output cannot encode. So a ref such as `refs/heads/` followed by a lone
  surrogate gets 500 from the program, where `HandleAsWritten` gives 200
  "ignored". Dafny's `string` is a sequence of Unicode scalar values and
  cannot hold a lone surrogate, so neither these inputs nor this exception are
  modelled.
- `repo_name` is passed to `trigger_pipeline` but never used there, so it is not
  a parameter of the model.
- `PyStr.Lower`: only ASCII letters are lowercased. Python's `str.lower` also
  lowercases other scripts.
- `PyStr.IsSpace`: follows Python's `str.isspace` for the white space `strip()`
  removes. The Unicode database itself is not modelled.
- `PyFormat.SsizeMax`: widths are bounded as on a 64-bit build of Python.
- YAML well-formedness of the manifest, injection through the tag, and the
  validity of the run name as a Kubernetes resource name are not modelled. The
  code checks none of them.
  - `PipelineRun.ManifestReadBack` is stated for tags and user names without a
    line break. Its reader is a small line scanner, not a YAML parser.

## Findings

| source | as written | input that shows it | evidently intended | confidence | as-written member | corrected member |
|---|---|---|---|---|---|---|
| documentation/tekton-tutorial-example/webhook-server.py:48 | The receipt message is an f-string holding the ref. It is passed to `log_message` as the format of `format % ()`, so a `%` in the ref raises `TypeError`. | A push of branch `refs/heads/100%` is answered 500 "not enough arguments for format string". | The message is logged as it is, and the push is answered 200 "ignored". | not executed | `WebhookLogging.PercentEndingRefFails` | `Webhook.Respond` |
| documentation/tekton-tutorial-example/webhook-server.py:157 | `kubectl`'s output is logged through the same format call. A `%` in it raises inside `trigger_pipeline`, and that exception is caught as a failure. | A tag push whose `kubectl apply` exits with 0 and prints `100%` is answered 500 "Failed to trigger pipeline", although the PipelineRun was created. | The output is logged as it is, and the push is answered 200 "success". | not executed | `WebhookLogging.PercentInOutputExample` | `Webhook.TagPushReply` |
