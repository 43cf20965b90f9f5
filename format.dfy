/**
 * The format detection at the head of `validateSourceJSON`: whether the
 * configured user library is inline text or a locator to fetch, and whether
 * it is YAML or JSON5. The string primitives follow their JavaScript
 * definitions (`indexOf`, `lastIndexOf`, `substring` with one argument).
 */
module Format {

  /** `s.indexOf(p)`: the first position at which `p` occurs in `s`, or -1. */
  function IndexOf(s: string, p: string): (i: int)
    ensures -1 <= i <= |s|
    ensures 0 <= i ==> p <= s[i..]
    ensures forall j :: 0 <= j <= |s| && (i == -1 || j < i) ==> !(p <= s[j..])
  {
    if p <= s then 0
    else if |s| == 0 then -1
    else
      var j := IndexOf(s[1..], p);
      assert forall k :: 1 <= k <= |s| ==> s[k..] == s[1..][k - 1..];
      if j == -1 then -1 else j + 1
  }

  /** `s.lastIndexOf(c)` for a one-character `c`: its last position, or -1. */
  function LastIndexOf(s: string, c: char): (i: int)
    ensures -1 <= i < |s|
    ensures 0 <= i ==> s[i] == c
    ensures forall j :: i < j < |s| ==> s[j] != c
  {
    if |s| == 0 then -1
    else if s[|s| - 1] == c then |s| - 1
    else LastIndexOf(s[..|s| - 1], c)
  }

  /** `s.substring(start)`: a start below 0 counts as 0, one past the end as the end. */
  function Substring(s: string, start: int): (r: string)
    ensures start <= 0 ==> r == s
    ensures 0 <= start <= |s| ==> r == s[start..]
    ensures |s| < start ==> r == ""
  {
    if start <= 0 then s else if start <= |s| then s[start..] else ""
  }

  predicate EndsWith(s: string, suffix: string) {
    |suffix| <= |s| && s[|s| - |suffix|..] == suffix
  }

  /** `yamlFileCheck`: the text from the last "." on (all of it without a dot) is ".yaml" or ".yml". */
  predicate YamlFileCheck(library: string): (b: bool)
    ensures b <==> EndsWith(library, ".yaml") || EndsWith(library, ".yml")
  {
    YamlFileCheckSuffix(library);
    var ext := Substring(library, LastIndexOf(library, '.'));
    ext == ".yaml" || ext == ".yml"
  }

  /** `configIsText`: the configured value starts with "{" or "---". */
  predicate ConfigIsText(userLibrary: string): (b: bool)
    ensures b <==> "{" <= userLibrary || "---" <= userLibrary
  {
    IndexOfZero(userLibrary, "{");
    IndexOfZero(userLibrary, "---");
    IndexOf(userLibrary, "{") == 0 || IndexOf(userLibrary, "---") == 0
  }

  /** `configIsYaml`: inline text starting with "---", or a locator whose file check says YAML. */
  predicate ConfigIsYaml(userLibrary: string): (b: bool)
    ensures b <==> if ConfigIsText(userLibrary) then "---" <= userLibrary
                   else EndsWith(userLibrary, ".yaml") || EndsWith(userLibrary, ".yml")
  {
    IndexOfZero(userLibrary, "---");
    if ConfigIsText(userLibrary) then IndexOf(userLibrary, "---") == 0 else YamlFileCheck(userLibrary)
  }

  /** What the head of `validateSourceJSON` decides about its argument. */
  datatype Detection =
    | NoUserLibrary
    | Detected(isText: bool, isYaml: bool, sourceName: string)

  function Detect(userLibrary: string): (d: Detection)
    ensures d.NoUserLibrary? <==> userLibrary == ""
  {
    if userLibrary == "" then NoUserLibrary
    else
      var isText := ConfigIsText(userLibrary);
      Detected(isText, ConfigIsYaml(userLibrary), if isText then "inline text" else "\"" + userLibrary + "\"")
  }

  /** `indexOf(p) === 0` is exactly "starts with `p`". */
  lemma IndexOfZero(s: string, p: string)
    ensures IndexOf(s, p) == 0 <==> p <= s
  {
  }

  /** A suffix that starts with the only dot in it starts at the last dot. */
  lemma LastDotOfSuffix(library: string, ext: string)
    requires EndsWith(library, ext) && |ext| > 0 && ext[0] == '.'
    requires forall j :: 0 < j < |ext| ==> ext[j] != '.'
    ensures LastIndexOf(library, '.') == |library| - |ext|
    ensures Substring(library, |library| - |ext|) == ext
  {
    var n := |library| - |ext|;
    assert library[n] == ext[0];
    forall j | n < j < |library| ensures library[j] != '.' {
      assert library[j] == ext[j - n];
    }
  }

  /** The extension test of the file check is exactly "ends with .yaml or .yml". */
  lemma YamlFileCheckSuffix(library: string)
    ensures var ext := Substring(library, LastIndexOf(library, '.'));
      ext == ".yaml" || ext == ".yml" <==> EndsWith(library, ".yaml") || EndsWith(library, ".yml")
  {
    if EndsWith(library, ".yaml") {
      LastDotOfSuffix(library, ".yaml");
    } else if EndsWith(library, ".yml") {
      LastDotOfSuffix(library, ".yml");
    }
  }

  /**
   * A non-empty argument is inline exactly when it starts with "{" or "---";
   * it is YAML exactly when it is inline and starts with "---", or is a
   * locator ending in ".yaml" or ".yml"; a locator is named in quotes.
   */
  lemma DetectSpec(userLibrary: string)
    requires userLibrary != ""
    ensures var d := Detect(userLibrary);
      && d.Detected?
      && (d.isText <==> "{" <= userLibrary || "---" <= userLibrary)
      && (d.isYaml <==>
            if d.isText then "---" <= userLibrary
            else EndsWith(userLibrary, ".yaml") || EndsWith(userLibrary, ".yml"))
      && d.sourceName == (if d.isText then "inline text" else "\"" + userLibrary + "\"")
  {
    IndexOfZero(userLibrary, "{");
    IndexOfZero(userLibrary, "---");
  }

  /** Inline text is never treated as a file name, whatever it ends with. */
  lemma InlineJsonIsJson5()
    ensures var d := Detect("{\"a\": 1} # x.yaml");
      d.Detected? && d.isText && !d.isYaml
  {
    var s := "{\"a\": 1} # x.yaml";
    DetectSpec(s);
    assert s[0] == '{';
    assert !("---" <= s) by { assert s[0] != "---"[0]; }
  }

  /** A locator without a dot is not YAML: the whole string is compared with the extensions. */
  lemma DotlessLocatorIsJson5()
    ensures var d := Detect("yaml");
      d.Detected? && !d.isText && !d.isYaml
  {
    DetectSpec("yaml");
    assert !("{" <= "yaml") by { assert "yaml"[0] != "{"[0]; }
    assert !("---" <= "yaml") by { assert "yaml"[0] != "---"[0]; }
    assert !EndsWith("yaml", ".yml") by { assert "yaml"[0] != ".yml"[0]; }
  }
}
