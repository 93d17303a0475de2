/**
 * Request ids and the plan and test file locations
 * (`build_request_id`, `default_output_path`, `plan_output_path`).
 */
module Paths {
  import opened Wrappers
  import opened Slug

  /** A relative path of one directory and one file name: `Path(dir) / name`. */
  datatype FilePath = FilePath(dir: string, name: string)

  /** `build_request_id`: the slug of the request, then the formatted clock reading. */
  function RequestId(spec: string, timestamp: string): (id: string)
    ensures |id| > |Slugify(spec)|
    ensures id[..|Slugify(spec)|] == Slugify(spec)
    ensures id[|Slugify(spec)|..] == "-" + timestamp
  {
    var slug := Slugify(spec);
    Concat(slug, "-" + timestamp);
    slug + ("-" + timestamp)
  }

  lemma Concat(a: string, b: string)
    ensures |a + b| == |a| + |b| && (a + b)[..|a|] == a && (a + b)[|a|..] == b
  {
  }

  /** The test file's extension: "spec.ts" for the language "ts", "spec.py" for any other. */
  function Extension(testLanguage: string): (ext: string)
    ensures ext == "spec.ts" <==> testLanguage == "ts"
    ensures ext == "spec.py" <==> testLanguage != "ts"
  {
    if testLanguage == "ts" then "spec.ts" else "spec.py"
  }

  /** `request_id or slugify(spec)`: `None` and the empty id both fall back to the slug. */
  function Stem(spec: string, requestId: Option<string>): (stem: string)
    ensures stem != ""
    ensures requestId.Some? && requestId.value != "" ==> stem == requestId.value
    ensures requestId.None? || requestId == Some("") ==> stem == Slugify(spec)
  {
    if requestId.Some? && requestId.value != "" then requestId.value else Slugify(spec)
  }

  /** `default_output_path`: `tests/<stem>.<ext>`. */
  function DefaultOutputPath(spec: string, testLanguage: string, requestId: Option<string>): (p: FilePath)
    ensures p.dir == "tests"
  {
    FilePath("tests", Stem(spec, requestId) + "." + Extension(testLanguage))
  }

  /** `plan_output_path`: `specs/<id>-plan.md`. */
  function PlanOutputPath(requestId: string): (p: FilePath)
    ensures p.dir == "specs"
  {
    FilePath("specs", requestId + "-plan.md")
  }

  /**
   * The default test file name splits back into its stem and its extension:
   * the last eight characters are "." and the extension, the rest is the
   * request id when one is given and not empty, otherwise the slug of the
   * request; the stem is never empty.
   */
  lemma DefaultOutputPathParts(spec: string, testLanguage: string, requestId: Option<string>)
    ensures var name := DefaultOutputPath(spec, testLanguage, requestId).name;
      && |name| > 8
      && name[|name| - 8..] == "." + Extension(testLanguage)
      && name[..|name| - 8] == Stem(spec, requestId)
  {
    var stem, ext := Stem(spec, requestId), Extension(testLanguage);
    NameParts(stem, ext);
  }

  lemma NameParts(stem: string, ext: string)
    requires |ext| == 7
    ensures var name := stem + "." + ext;
      && |name| == |stem| + 8
      && name[|name| - 8..] == "." + ext
      && name[..|name| - 8] == stem
  {
    assert stem + "." + ext == stem + ("." + ext);
    Concat(stem, "." + ext);
  }

  /** The plan file name ends in "-plan.md" and starts with the request id. */
  lemma PlanOutputPathParts(requestId: string)
    ensures var name := PlanOutputPath(requestId).name;
      && |name| == |requestId| + 8
      && name[..|requestId|] == requestId
      && name[|requestId|..] == "-plan.md"
  {
  }
}
