/**
  What `trigger_pipeline` derives from a tag before it touches the file system
  or the cluster: the sanitised tag, the PipelineRun name, the path of the
  temporary manifest file, and the PipelineRun manifest itself, rendered from
  a fixed template. A small line reader reads the rendered manifest back.
 */
module PipelineRun {
  import opened PyStr

  datatype Option<T> = None | Some(value: T)

  const PipelineName: string := "build-and-push-pipeline"
  const ServiceAccount: string := "tekton-pipeline-sa"
  const ImageName: string := "tekton-tutorial"
  /** The value used when `DOCKERHUB_USERNAME` is not set in the environment. */
  const DefaultDockerhubUsername: string := "YOUR_DOCKERHUB_USERNAME"

  const RunNamePrefix: string := "build-and-push-"
  const TempPathPrefix: string := "/tmp/pipelinerun-"
  const TempPathSuffix: string := ".yaml"

  /** The configuration read once from the environment at start-up. */
  datatype Config = Config(dockerhubUsername: string)

  /** `os.getenv('DOCKERHUB_USERNAME', 'YOUR_DOCKERHUB_USERNAME')` */
  function LoadConfig(env: map<string, string>): (cfg: Config)
    ensures "DOCKERHUB_USERNAME" in env ==> cfg.dockerhubUsername == env["DOCKERHUB_USERNAME"]
    ensures "DOCKERHUB_USERNAME" !in env ==> cfg.dockerhubUsername == DefaultDockerhubUsername
  {
    Config(if "DOCKERHUB_USERNAME" in env then env["DOCKERHUB_USERNAME"] else DefaultDockerhubUsername)
  }

  // ----- sanitisation and derived names -----

  /** What sanitisation does to one character. */
  function SanitizeChar(c: char): char {
    if c == '.' || c == '_' then '-' else LowerChar(c)
  }

  /** `tag.replace('.', '-').replace('_', '-').lower()` */
  function SafeTag(tag: string): string {
    Lower(Replace(Replace(tag, ".", "-"), "_", "-"))
  }

  /** The chain of `replace` calls and `lower` amounts to sanitising each
      character on its own. */
  lemma SafeTagPerChar(tag: string)
    ensures |SafeTag(tag)| == |tag|
    ensures forall i :: 0 <= i < |tag| ==> SafeTag(tag)[i] == SanitizeChar(tag[i])
  {
    ReplaceOneChar(tag, '.', '-');
    var once := Replace(tag, ".", "-");
    ReplaceOneChar(once, '_', '-');
  }

  /** The sanitised tag has the tag's length; it holds no `.`, no `_` and no
      ASCII capital; `.` and `_` became `-` and every other character was
      kept, lower-cased. */
  lemma SafeTagShape(tag: string)
    ensures |SafeTag(tag)| == |tag|
    ensures forall i :: 0 <= i < |tag| ==>
              var c := SafeTag(tag)[i];
              c != '.' && c != '_' && !IsAsciiUpper(c)
              && (tag[i] == '.' || tag[i] == '_' ==> c == '-')
              && (tag[i] != '.' && tag[i] != '_' ==> c == LowerChar(tag[i]))
  {
    SafeTagPerChar(tag);
  }

  /** Sanitising a sanitised tag changes nothing. */
  lemma SafeTagIdempotent(tag: string)
    ensures SafeTag(SafeTag(tag)) == SafeTag(tag)
  {
    var s := SafeTag(tag);
    SafeTagPerChar(tag);
    SafeTagPerChar(s);
  }

  /** Two tags are sanitised alike exactly when they agree character by
      character once `.`, `_` and `-` are identified and case is ignored. */
  lemma SafeTagsEqualIff(a: string, b: string)
    ensures SafeTag(a) == SafeTag(b) <==>
              |a| == |b| && forall i :: 0 <= i < |a| ==> SanitizeChar(a[i]) == SanitizeChar(b[i])
  {
    SafeTagPerChar(a);
    SafeTagPerChar(b);
    if |a| == |b| && forall i :: 0 <= i < |a| ==> SanitizeChar(a[i]) == SanitizeChar(b[i]) {
      assert forall i :: 0 <= i < |a| ==> SafeTag(a)[i] == SafeTag(b)[i];
    }
  }

  /** The name of the PipelineRun created for `tag`. */
  function PipelineRunName(tag: string): string {
    RunNamePrefix + SafeTag(tag)
  }

  /** The path the manifest for `tag` is written to before it is applied. */
  function TempFilePath(tag: string): string {
    TempPathPrefix + SafeTag(tag) + TempPathSuffix
  }

  /** Both derived identifiers are the fixed prefix (and, for the path, the fixed
      suffix) around the sanitised tag, and nothing else. */
  lemma DerivedNamesShape(tag: string)
    ensures StartsWith(PipelineRunName(tag), RunNamePrefix)
    ensures PipelineRunName(tag)[|RunNamePrefix|..] == SafeTag(tag)
    ensures StartsWith(TempFilePath(tag), TempPathPrefix)
    ensures |TempFilePath(tag)| == |TempPathPrefix| + |tag| + |TempPathSuffix|
    ensures TempFilePath(tag)[|TempPathPrefix|..|TempPathPrefix| + |tag|] == SafeTag(tag)
    ensures TempFilePath(tag)[|TempPathPrefix| + |tag|..] == TempPathSuffix
  {
    SafeTagPerChar(tag);
    var n := RunNamePrefix + SafeTag(tag);
    assert n[..|RunNamePrefix|] == RunNamePrefix;
    var p := TempPathPrefix + SafeTag(tag) + TempPathSuffix;
    assert p[..|TempPathPrefix|] == TempPathPrefix;
  }

  /** Two tags get the same PipelineRun name exactly when they get the same
      temporary path, and exactly when their sanitised forms agree. */
  lemma DerivedNamesCollideIff(a: string, b: string)
    ensures PipelineRunName(a) == PipelineRunName(b) <==> SafeTag(a) == SafeTag(b)
    ensures TempFilePath(a) == TempFilePath(b) <==> SafeTag(a) == SafeTag(b)
  {
    SafeTagPerChar(a);
    SafeTagPerChar(b);
    DerivedNamesShape(a);
    DerivedNamesShape(b);
    if TempFilePath(a) == TempFilePath(b) {
      assert |a| == |b|;
    }
  }

  /** Sanitisation example: `v1.2_3` becomes `v1-2-3`. */
  lemma SafeTagExample()
    ensures SafeTag("v1.2_3") == "v1-2-3"
    ensures PipelineRunName("v1.2_3") == "build-and-push-v1-2-3"
  {
    SafeTagPerChar("v1.2_3");
  }

  /** The naming is not injective: `v1.0`, `v1_0` and `V1.0` are three tags
      with one PipelineRun name and one temporary path. */
  lemma DistinctTagsCollide()
    ensures "v1.0" != "v1_0" && "v1.0" != "V1.0" && "v1_0" != "V1.0"
    ensures PipelineRunName("v1.0") == PipelineRunName("v1_0") == PipelineRunName("V1.0")
    ensures TempFilePath("v1.0") == TempFilePath("v1_0") == TempFilePath("V1.0")
  {
    assert "v1.0"[2] != "v1_0"[2];
    assert "v1.0"[0] != "V1.0"[0];
    SafeTagPerChar("v1.0");
    SafeTagPerChar("v1_0");
    SafeTagPerChar("V1.0");
    assert SafeTag("v1.0") == "v1-0";
    assert SafeTag("v1_0") == "v1-0";
    assert SafeTag("V1.0") == "v1-0";
  }

  // ----- the manifest -----

  function ParamHeader(name: string): string {
    "    - name: " + name
  }

  function ValueLine(value: string): string {
    "      value: \"" + value + "\""
  }

  /** The template's `apiVersion`, `kind` and `metadata` lines. */
  function MetadataLines(tag: string): seq<string> {
    [ "apiVersion: tekton.dev/v1beta1",
      "kind: PipelineRun",
      "metadata:",
      "  name: " + PipelineRunName(tag),
      "  labels:",
      "    app: tekton-tutorial",
      "    tag: " + tag ]
  }

  /** The template's `spec` lines up to the parameter list. */
  const SpecLines: seq<string> :=
    [ "spec:",
      "  pipelineRef:",
      "    name: " + PipelineName,
      "  serviceAccountName: " + ServiceAccount,
      "  params:" ]

  /** The template's parameter entries. */
  function ParamLines(cfg: Config, tag: string): seq<string> {
    [ ParamHeader("git-tag"), ValueLine(tag),
      ParamHeader("image-name"), ValueLine(ImageName),
      ParamHeader("image-tag"), ValueLine(tag),
      ParamHeader("dockerhub-username"), ValueLine(cfg.dockerhubUsername),
      ParamHeader("dockerhub-password"), ValueLine("") ]
  }

  /** The template's workspace declaration: one 1Gi ReadWriteOnce claim. */
  const WorkspaceLines: seq<string> :=
    [ "  workspaces:",
      "    - name: shared-workspace",
      "      volumeClaimTemplate:",
      "        spec:",
      "          accessModes:",
      "            - ReadWriteOnce",
      "          resources:",
      "            requests:",
      "              storage: 1Gi" ]

  /** The lines of the PipelineRun template, with `tag`, the run name and the
      configured user name filled in. */
  function ManifestLines(cfg: Config, tag: string): seq<string> {
    MetadataLines(tag) + SpecLines + ParamLines(cfg, tag) + WorkspaceLines
  }

  /** Every line followed by a line break, one after the other. */
  function JoinLines(ls: seq<string>): string
    decreases |ls|
  {
    if ls == [] then "" else ls[0] + "\n" + JoinLines(ls[1..])
  }

  /** The manifest text handed to `kubectl apply`. */
  function RenderManifest(cfg: Config, tag: string): string {
    JoinLines(ManifestLines(cfg, tag))
  }

  // ----- reading the manifest back -----

  /** Index of the first line break in `s`, or `|s|` when there is none. */
  function NewlineIndex(s: string): (k: nat)
    ensures k <= |s|
    ensures k < |s| ==> s[k] == '\n'
    ensures forall j :: 0 <= j < k ==> s[j] != '\n'
    decreases |s|
  {
    if s == [] || s[0] == '\n' then 0 else 1 + NewlineIndex(s[1..])
  }

  /** The lines of `s`, split at line breaks. */
  function SplitLines(s: string): seq<string>
    decreases |s|
  {
    if s == [] then []
    else
      var k := NewlineIndex(s);
      if k == |s| then [s] else [s[..k]] + SplitLines(s[k + 1..])
  }

  lemma SplitLinesCons(l: string, rest: string)
    requires '\n' !in l
    ensures SplitLines(l + "\n" + rest) == [l] + SplitLines(rest)
  {
    var s := l + "\n" + rest;
    assert s[|l|] == '\n';
    assert s[..|l|] == l;
    assert s[|l| + 1..] == rest;
  }

  predicate NoLineBreaks(ls: seq<string>) {
    forall i :: 0 <= i < |ls| ==> '\n' !in ls[i]
  }

  /** Splitting joined lines gives the lines back when none holds a line break. */
  lemma {:induction false} SplitJoinLines(ls: seq<string>)
    requires NoLineBreaks(ls)
    ensures SplitLines(JoinLines(ls)) == ls
    decreases |ls|
  {
    if ls != [] {
      SplitJoinLines(ls[1..]);
      SplitLinesCons(ls[0], JoinLines(ls[1..]));
    }
  }

  /** The rest of the first line that starts with `key`. */
  function FieldValue(ls: seq<string>, key: string): Option<string>
    decreases |ls|
  {
    if ls == [] then None
    else if StartsWith(ls[0], key) then Some(ls[0][|key|..])
    else FieldValue(ls[1..], key)
  }

  predicate IsValueLine(l: string) {
    |l| >= 15 && l[..14] == "      value: \"" && l[|l| - 1] == '"'
  }

  /** The quoted value of the first parameter entry named `name`. */
  function ParamValue(ls: seq<string>, name: string): Option<string>
    decreases |ls|
  {
    if |ls| < 2 then None
    else if ls[0] == ParamHeader(name) && IsValueLine(ls[1]) then Some(ls[1][14..|ls[1]| - 1])
    else ParamValue(ls[1..], name)
  }

  lemma {:induction false} FieldValueSkip(ls: seq<string>, key: string, k: nat)
    requires k <= |ls|
    requires forall i :: 0 <= i < k ==> !StartsWith(ls[i], key)
    ensures FieldValue(ls, key) == FieldValue(ls[k..], key)
    decreases k
  {
    if k > 0 {
      FieldValueSkip(ls[1..], key, k - 1);
      assert ls[1..][k - 1..] == ls[k..];
    }
  }

  lemma {:induction false} ParamValueSkip(ls: seq<string>, name: string, k: nat)
    requires k <= |ls|
    requires forall i :: 0 <= i < k ==> ls[i] != ParamHeader(name)
    ensures ParamValue(ls, name) == ParamValue(ls[k..], name)
    decreases k
  {
    if k > 0 {
      ParamValueSkip(ls[1..], name, k - 1);
      assert ls[1..][k - 1..] == ls[k..];
    }
  }

  lemma {:induction false} FieldValueAppend(a: seq<string>, b: seq<string>, key: string)
    requires FieldValue(a, key).Some?
    ensures FieldValue(a + b, key) == FieldValue(a, key)
    decreases |a|
  {
    assert (a + b)[0] == a[0];
    if !StartsWith(a[0], key) {
      FieldValueAppend(a[1..], b, key);
      assert (a + b)[1..] == a[1..] + b;
    }
  }

  lemma {:induction false} ParamValueAfter(a: seq<string>, b: seq<string>, name: string)
    requires forall i :: 0 <= i < |a| ==> a[i] != ParamHeader(name)
    ensures ParamValue(a + b, name) == ParamValue(b, name)
    decreases |a|
  {
    if a != [] {
      assert (a + b)[0] == a[0];
      assert (a + b)[1..] == a[1..] + b;
      ParamValueAfter(a[1..], b, name);
    } else {
      assert a + b == b;
    }
  }

  lemma ValueLineRead(v: string)
    ensures IsValueLine(ValueLine(v))
    ensures ValueLine(v)[14..|ValueLine(v)| - 1] == v
  {
    var l := ValueLine(v);
    assert l[..14] == "      value: \"";
  }

  /** A line whose fifth character is not `-` is no parameter header. */
  lemma NotParamHeader(l: string, name: string)
    requires |l| > 4 && l[4] != '-'
    ensures l != ParamHeader(name)
  {
    assert ParamHeader(name)[4] == '-';
  }

  lemma SafeTagNoNewline(tag: string)
    requires '\n' !in tag
    ensures '\n' !in SafeTag(tag) && '\n' !in PipelineRunName(tag)
  {
    SafeTagPerChar(tag);
  }

  lemma {:induction false} NoLineBreaksConcat(a: seq<string>, b: seq<string>)
    requires NoLineBreaks(a) && NoLineBreaks(b)
    ensures NoLineBreaks(a + b)
  {
    forall i | 0 <= i < |a + b| ensures '\n' !in (a + b)[i] {
      if i >= |a| {
        assert (a + b)[i] == b[i - |a|];
      }
    }
  }

  lemma MetadataLinesHaveNoLineBreaks(tag: string)
    requires '\n' !in tag
    ensures NoLineBreaks(MetadataLines(tag))
  {
    SafeTagNoNewline(tag);
  }

  lemma ParamLinesHaveNoLineBreaks(cfg: Config, tag: string)
    requires '\n' !in tag && '\n' !in cfg.dockerhubUsername
    ensures NoLineBreaks(ParamLines(cfg, tag))
  {
  }

  lemma FixedLinesHaveNoLineBreaks()
    ensures NoLineBreaks(SpecLines) && NoLineBreaks(WorkspaceLines)
  {
  }

  lemma ManifestLinesHaveNoLineBreaks(cfg: Config, tag: string)
    requires '\n' !in tag && '\n' !in cfg.dockerhubUsername
    ensures NoLineBreaks(ManifestLines(cfg, tag))
  {
    MetadataLinesHaveNoLineBreaks(tag);
    ParamLinesHaveNoLineBreaks(cfg, tag);
    FixedLinesHaveNoLineBreaks();
    NoLineBreaksConcat(MetadataLines(tag), SpecLines);
    NoLineBreaksConcat(MetadataLines(tag) + SpecLines, ParamLines(cfg, tag));
    NoLineBreaksConcat(MetadataLines(tag) + SpecLines + ParamLines(cfg, tag), WorkspaceLines);
  }

  lemma DiffersAt(s: string, key: string, j: nat)
    requires j < |s| && j < |key| && s[j] != key[j]
    ensures !StartsWith(s, key)
  {
    if |key| <= |s| {
      assert s[..|key|][j] == s[j];
    }
  }

  /** The first `name:` and `tag:` entries of the manifest are the metadata's. */
  lemma ManifestMetadata(cfg: Config, tag: string)
    ensures FieldValue(ManifestLines(cfg, tag), "  name: ") == Some(PipelineRunName(tag))
    ensures FieldValue(ManifestLines(cfg, tag), "    tag: ") == Some(tag)
  {
    var m := MetadataLines(tag);
    var rest := SpecLines + ParamLines(cfg, tag) + WorkspaceLines;
    assert ManifestLines(cfg, tag) == m + rest;
    assert m[3][..8] == "  name: ";
    forall i | 0 <= i < 3 ensures !StartsWith(m[i], "  name: ") {
      DiffersAt(m[i], "  name: ", 0);
    }
    FieldValueSkip(m, "  name: ", 3);
    FieldValueAppend(m, rest, "  name: ");
    assert m[6][..9] == "    tag: ";
    assert m[3][2] != "    tag: "[2];
    forall i | 0 <= i < 6 ensures !StartsWith(m[i], "    tag: ") {
      if i < 3 {
        DiffersAt(m[i], "    tag: ", 0);
      } else if i < 5 {
        DiffersAt(m[i], "    tag: ", 2);
      } else {
        DiffersAt(m[i], "    tag: ", 4);
      }
    }
    FieldValueSkip(m, "    tag: ", 6);
    FieldValueAppend(m, rest, "    tag: ");
  }

  /** In the parameter list, each entry's value is what the template put there. */
  lemma ParamEntries(cfg: Config, tag: string)
    ensures var p := ParamLines(cfg, tag);
      && ParamValue(p, "git-tag") == Some(tag)
      && ParamValue(p, "image-name") == Some(ImageName)
      && ParamValue(p, "image-tag") == Some(tag)
      && ParamValue(p, "dockerhub-username") == Some(cfg.dockerhubUsername)
      && ParamValue(p, "dockerhub-password") == Some("")
  {
    var p := ParamLines(cfg, tag);
    ValueLineRead(tag);
    ValueLineRead(ImageName);
    ValueLineRead(cfg.dockerhubUsername);
    ValueLineRead("");
    NotParamHeader(ValueLine(tag), "image-name");
    ParamValueSkip(p, "image-name", 2);
    NotParamHeader(ValueLine(tag), "image-tag");
    NotParamHeader(ValueLine(ImageName), "image-tag");
    ParamValueSkip(p, "image-tag", 4);
    NotParamHeader(ValueLine(tag), "dockerhub-username");
    NotParamHeader(ValueLine(ImageName), "dockerhub-username");
    ParamValueSkip(p, "dockerhub-username", 6);
    NotParamHeader(ValueLine(tag), "dockerhub-password");
    NotParamHeader(ValueLine(ImageName), "dockerhub-password");
    NotParamHeader(ValueLine(cfg.dockerhubUsername), "dockerhub-password");
    assert ParamHeader("dockerhub-username")[22] != ParamHeader("dockerhub-password")[22];
    ParamValueSkip(p, "dockerhub-password", 8);
  }

  /** The first parameter entry named `name` in the manifest is the one in its
      parameter list. */
  lemma ManifestParam(cfg: Config, tag: string, name: string)
    requires name in {"git-tag", "image-name", "image-tag", "dockerhub-username", "dockerhub-password"}
    ensures ParamValue(ManifestLines(cfg, tag), name) ==
              ParamValue(ParamLines(cfg, tag) + WorkspaceLines, name)
  {
    var head := MetadataLines(tag) + SpecLines;
    forall i | 0 <= i < |head| ensures head[i] != ParamHeader(name) {
      NotParamHeader(head[i], name);
    }
    assert ManifestLines(cfg, tag) == head + (ParamLines(cfg, tag) + WorkspaceLines);
    ParamValueAfter(head, ParamLines(cfg, tag) + WorkspaceLines, name);
  }

  /** A parameter entry found in a list is still the one found once more lines
      follow. */
  lemma {:induction false} ParamValueAppend(a: seq<string>, b: seq<string>, name: string)
    requires ParamValue(a, name).Some?
    ensures ParamValue(a + b, name) == ParamValue(a, name)
    decreases |a|
  {
    assert (a + b)[0] == a[0] && (a + b)[1] == a[1];
    if !(a[0] == ParamHeader(name) && IsValueLine(a[1])) {
      ParamValueAppend(a[1..], b, name);
      assert (a + b)[1..] == a[1..] + b;
    }
  }

  /** Read back line by line, the rendered manifest names the PipelineRun after
      the sanitised tag, labels it with the tag, and passes the tag as both
      `git-tag` and `image-tag`, the fixed image name, the configured user name
      and an empty password, provided the tag and the user name hold no line
      break. */
  lemma ManifestReadBack(cfg: Config, tag: string)
    requires '\n' !in tag && '\n' !in cfg.dockerhubUsername
    ensures var ls := SplitLines(RenderManifest(cfg, tag));
      && FieldValue(ls, "  name: ") == Some(PipelineRunName(tag))
      && FieldValue(ls, "    tag: ") == Some(tag)
      && ParamValue(ls, "git-tag") == Some(tag)
      && ParamValue(ls, "image-name") == Some(ImageName)
      && ParamValue(ls, "image-tag") == Some(tag)
      && ParamValue(ls, "dockerhub-username") == Some(cfg.dockerhubUsername)
      && ParamValue(ls, "dockerhub-password") == Some("")
  {
    ManifestLinesHaveNoLineBreaks(cfg, tag);
    SplitJoinLines(ManifestLines(cfg, tag));
    ManifestMetadata(cfg, tag);
    ParamEntries(cfg, tag);
    var p := ParamLines(cfg, tag);
    ManifestParam(cfg, tag, "git-tag");
    ParamValueAppend(p, WorkspaceLines, "git-tag");
    ManifestParam(cfg, tag, "image-name");
    ParamValueAppend(p, WorkspaceLines, "image-name");
    ManifestParam(cfg, tag, "image-tag");
    ParamValueAppend(p, WorkspaceLines, "image-tag");
    ManifestParam(cfg, tag, "dockerhub-username");
    ParamValueAppend(p, WorkspaceLines, "dockerhub-username");
    ManifestParam(cfg, tag, "dockerhub-password");
    ParamValueAppend(p, WorkspaceLines, "dockerhub-password");
  }
}
