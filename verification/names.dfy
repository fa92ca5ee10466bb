/**
 * Names derived from file and plugin names in `convertTemplate`: which
 * files are rules, the skill name of a rule file, and the plugin keyword.
 */
module Names {
  import opened Options

  /** `fileName.endsWith('.md')`: the filter applied to every directory listing. */
  predicate IsMarkdown(fileName: string): (b: bool)
    ensures b <==> var n := |fileName|; n >= 3 && fileName[n - 3] == '.' && fileName[n - 2] == 'm' && fileName[n - 1] == 'd'
  {
    |fileName| >= 3 && fileName[|fileName| - 3..] == ".md"
  }

  /** `pattern` occurs in `s` starting at index `i`. */
  predicate OccursAt(s: string, pattern: string, i: nat) {
    i + |pattern| <= |s| && s[i..i + |pattern|] == pattern
  }

  /** `s.indexOf(pattern, from)`: the first occurrence at or after `from`. */
  function IndexOf(s: string, pattern: string, from: nat): (r: Option<nat>)
    requires from <= |s|
    ensures r.Some? ==> from <= r.value && OccursAt(s, pattern, r.value)
    ensures r.Some? ==> forall i: nat :: from <= i < r.value ==> !OccursAt(s, pattern, i)
    ensures r.None? ==> forall i: nat :: from <= i ==> !OccursAt(s, pattern, i)
    decreases |s| - from
  {
    if OccursAt(s, pattern, from) then Some(from)
    else if from == |s| then None
    else IndexOf(s, pattern, from + 1)
  }

  /**
   * `s.replace(pattern, replacement)` with a string pattern: only the first
   * occurrence is replaced; without one, `s` is returned unchanged.
   */
  function ReplaceFirst(s: string, pattern: string, replacement: string): (r: string)
    ensures (forall i: nat :: !OccursAt(s, pattern, i)) ==> r == s
    ensures (exists i: nat :: OccursAt(s, pattern, i)) ==> |r| == |s| - |pattern| + |replacement|
    ensures forall i: nat :: OccursAt(s, pattern, i) && (forall j: nat :: j < i ==> !OccursAt(s, pattern, j))
              ==> r == s[..i] + replacement + s[i + |pattern|..]
  {
    match IndexOf(s, pattern, 0)
    case Some(i) => s[..i] + replacement + s[i + |pattern|..]
    case None => s
  }

  /** `rule.replace('.md', '')`: the skill name of a rule file. */
  function SkillName(fileName: string): (r: string)
    ensures IsMarkdown(fileName) ==> |r| + 3 == |fileName|
    ensures (forall i: nat :: !OccursAt(fileName, ".md", i)) ==> r == fileName
  {
    assert IsMarkdown(fileName) ==> OccursAt(fileName, ".md", |fileName| - 3);
    ReplaceFirst(fileName, ".md", "")
  }

  /**
   * For a markdown file name in which ".md" occurs only as the extension,
   * the skill name is the file name without its extension.
   */
  lemma SkillNameDropsExtension(fileName: string)
    requires IsMarkdown(fileName)
    requires forall i: nat :: OccursAt(fileName, ".md", i) ==> i == |fileName| - 3
    ensures SkillName(fileName) == fileName[..|fileName| - 3]
  {
    var n := |fileName|;
    assert OccursAt(fileName, ".md", n - 3);
    assert fileName[n - 3 + 3..] == [];
  }

  /**
   * The first ".md" is removed, not the extension: "a.mdb.md" becomes
   * "ab.md", where stripping the extension would give "a.mdb".
   */
  lemma SkillNameRemovesFirstOccurrence(stem: string, middle: string)
    requires '.' !in stem
    requires |middle| >= 1 && middle[0] != '.'
    ensures var fileName := stem + ".md" + middle + ".md";
            && IsMarkdown(fileName)
            && SkillName(fileName) == stem + (middle + ".md")
            && SkillName(fileName) != fileName[..|fileName| - 3]
  {
    var fileName := stem + ".md" + middle + ".md";
    FirstDotMd(stem, middle);
    assert SkillName(fileName) == fileName[..|stem|] + "" + fileName[|stem| + 3..];
    SplitAtDotMd(stem, middle);
    NotTheExtension(stem, middle);
  }

  /** In "<stem>.md<middle>.md" with no dot in the stem, the first ".md" follows the stem. */
  lemma FirstDotMd(stem: string, middle: string)
    requires '.' !in stem
    ensures var fileName := stem + ".md" + middle + ".md";
            && OccursAt(fileName, ".md", |stem|)
            && forall j: nat :: j < |stem| ==> !OccursAt(fileName, ".md", j)
  {
    var fileName := stem + ".md" + middle + ".md";
    assert fileName[|stem|..|stem| + 3] == ".md";
    forall j: nat | j < |stem| ensures !OccursAt(fileName, ".md", j) {
      assert fileName[j] == stem[j];
    }
  }

  lemma SplitAtDotMd(stem: string, middle: string)
    ensures var fileName := stem + ".md" + middle + ".md";
            && fileName[..|stem|] == stem
            && fileName[|stem| + 3..] == middle + ".md"
  {
  }

  /** Removing the first ".md" differs from removing the extension when something else follows it. */
  lemma NotTheExtension(stem: string, middle: string)
    requires |middle| >= 1 && middle[0] != '.'
    ensures var fileName := stem + ".md" + middle + ".md";
            stem + (middle + ".md") != fileName[..|fileName| - 3]
  {
    var fileName := stem + ".md" + middle + ".md";
    assert (stem + (middle + ".md"))[|stem|] == middle[0];
    assert fileName[..|fileName| - 3][|stem|] == '.';
  }

  /** `pluginName.replace(/-/g, ' ')`: the plugin's second keyword. */
  function Keyword(pluginName: string): (r: string)
    ensures |r| == |pluginName|
    ensures forall i :: 0 <= i < |r| ==> r[i] == (if pluginName[i] == '-' then ' ' else pluginName[i])
    ensures '-' !in r
  {
    if |pluginName| == 0 then []
    else [if pluginName[0] == '-' then ' ' else pluginName[0]] + Keyword(pluginName[1..])
  }

  /** A name without hyphens is its own keyword, so deriving the keyword twice changes nothing more. */
  lemma KeywordIdempotent(pluginName: string)
    ensures '-' !in pluginName ==> Keyword(pluginName) == pluginName
    ensures Keyword(Keyword(pluginName)) == Keyword(pluginName)
  {
  }
}
