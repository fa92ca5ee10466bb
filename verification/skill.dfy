/**
 * `convertRuleToSkill`: derive a description from a rule file's first
 * top-level heading and prepend a frontmatter block naming the skill.
 */
module Skill {
  import opened Options
  import opened Text
  import opened Heading

  /** No line terminator anywhere in `s`: it fits on one line. */
  predicate SingleLine(s: string) {
    forall c :: c in s ==> !IsLineTerminator(c)
  }

  /** The skill description: the heading text without "Rule"/"Rules", trimmed, or the skill name. */
  function Description(content: string, skillName: string): (r: string)
    ensures |r| >= 9 && r[|r| - 9..] == " guidance"
    ensures FirstHeading(content).None? ==> r == skillName + " guidance"
  {
    match FirstHeading(content)
    case Some(heading) => Trim(StripRuleSuffix(heading)) + " guidance"
    case None => skillName + " guidance"
  }

  const NamePrefix: string := "---\nname: "
  const DescriptionPrefix: string := "description: "
  const Closing: string := "---\n\n"

  /** The header block placed before the rule's content. */
  function Frontmatter(skillName: string, description: string): (r: string)
    ensures |r| == |NamePrefix| + |skillName| + 1 + |DescriptionPrefix| + |description| + 1 + |Closing|
    ensures r[..|NamePrefix|] == NamePrefix && r[|r| - |Closing|..] == Closing
  {
    NamePrefix + skillName + "\n" + DescriptionPrefix + description + "\n" + Closing
  }

  /**
   * `convertRuleToSkill` once the file has been read: the frontmatter
   * followed by the unchanged content; the name line carries the name verbatim.
   */
  function ConvertRuleToSkill(content: string, skillName: string): (r: string)
    ensures |r| >= |NamePrefix| + |skillName| + |content|
    ensures r[|r| - |content|..] == content
    ensures r[..|NamePrefix|] == NamePrefix
    ensures r[|NamePrefix|..|NamePrefix| + |skillName|] == skillName
  {
    var description := Description(content, skillName);
    FrontmatterShape(skillName, description, content);
    Frontmatter(skillName, description) + content
  }

  /** Where the name and the content sit in a skill file, whatever the description. */
  lemma FrontmatterShape(skillName: string, description: string, content: string)
    ensures var r := Frontmatter(skillName, description) + content;
            && |r| >= |NamePrefix| + |skillName| + |content|
            && r[|r| - |content|..] == content
            && r[..|NamePrefix|] == NamePrefix
            && r[|NamePrefix|..|NamePrefix| + |skillName|] == skillName
  {
    var rest := "\n" + DescriptionPrefix + description + "\n" + Closing;
    var header := Frontmatter(skillName, description);
    assert header == NamePrefix + skillName + rest;
    assert (header + content)[|header|..] == content;
    assert (header + content)[..|NamePrefix|] == NamePrefix;
    assert (header + content)[|NamePrefix|..|NamePrefix| + |skillName|] == skillName;
  }

  // ---------------------------------------------------------------------
  // Reading a skill file back
  // ---------------------------------------------------------------------

  datatype SkillDoc = SkillDoc(name: string, description: string, body: string)

  /** Splits `s` at its first LF. */
  function SplitAtNewline(s: string): (r: Option<(string, string)>)
    ensures r.Some? ==> s == r.value.0 + "\n" + r.value.1 && '\n' !in r.value.0
    ensures r.None? ==> '\n' !in s
  {
    if |s| == 0 then None
    else if s[0] == '\n' then Some(([], s[1..]))
    else
      match SplitAtNewline(s[1..])
      case Some((line, rest)) => Some(([s[0]] + line, rest))
      case None => None
  }

  lemma {:induction false} SplitAtNewlineOf(line: string, rest: string)
    requires '\n' !in line
    ensures SplitAtNewline(line + "\n" + rest) == Some((line, rest))
  {
    if |line| == 0 {
      assert line + "\n" + rest == "\n" + rest;
    } else {
      assert (line + "\n" + rest)[1..] == line[1..] + "\n" + rest;
      SplitAtNewlineOf(line[1..], rest);
      assert [line[0]] + line[1..] == line;
    }
  }

  /** Reads the name, the description and the body out of a skill file. */
  function ParseSkill(doc: string): Option<SkillDoc> {
    if |doc| < |NamePrefix| || doc[..|NamePrefix|] != NamePrefix then None
    else
      match SplitAtNewline(doc[|NamePrefix|..])
      case None => None
      case Some((name, rest)) =>
        if |rest| < |DescriptionPrefix| || rest[..|DescriptionPrefix|] != DescriptionPrefix then None
        else
          match SplitAtNewline(rest[|DescriptionPrefix|..])
          case None => None
          case Some((description, tail)) =>
            if |tail| < |Closing| || tail[..|Closing|] != Closing then None
            else Some(SkillDoc(name, description, tail[|Closing|..]))
  }

  /** A frontmatter whose name and description fit on one line reads back as written. */
  lemma FrontmatterRoundTrip(skillName: string, description: string, body: string)
    requires '\n' !in skillName && '\n' !in description
    ensures ParseSkill(Frontmatter(skillName, description) + body) == Some(SkillDoc(skillName, description, body))
  {
    var rest := DescriptionPrefix + description + "\n" + Closing + body;
    var tail := Closing + body;
    FrontmatterLayout(skillName, description, body);
    SplitAtNewlineOf(skillName, rest);
    SplitAtNewlineOf(description, tail);
  }

  /** The pieces a skill file is made of, as `ParseSkill` takes them apart. */
  lemma FrontmatterLayout(skillName: string, description: string, body: string)
    ensures var doc := Frontmatter(skillName, description) + body;
            var rest := DescriptionPrefix + description + "\n" + Closing + body;
            && |doc| >= |NamePrefix| && doc[..|NamePrefix|] == NamePrefix
            && doc[|NamePrefix|..] == skillName + "\n" + rest
            && rest[..|DescriptionPrefix|] == DescriptionPrefix
            && rest[|DescriptionPrefix|..] == description + "\n" + (Closing + body)
  {
    var doc := Frontmatter(skillName, description) + body;
    var rest := DescriptionPrefix + description + "\n" + Closing + body;
    assert doc == NamePrefix + (skillName + "\n" + rest);
    assert rest == DescriptionPrefix + (description + "\n" + (Closing + body));
  }

  /** The derived description never spans lines when the skill name does not. */
  lemma DescriptionSingleLine(content: string, skillName: string)
    requires SingleLine(skillName)
    ensures SingleLine(Description(content, skillName))
  {
    match FirstHeading(content)
    case Some(heading) =>
      var p: nat, k: nat :| ChosenMatch(content, 0, p, k) && heading == Capture(content, p, k);
      CleanedHeadingSingleLine(heading);
    case None =>
  }

  lemma CleanedHeadingSingleLine(heading: string)
    requires SingleLine(heading)
    ensures SingleLine(Trim(StripRuleSuffix(heading)) + " guidance")
  {
    var stripped := StripRuleSuffix(heading);
    assert stripped == heading[..|stripped|];
    TrimSingleLine(stripped);
    GuidanceSingleLine(Trim(stripped));
  }

  lemma TrimSingleLine(s: string)
    requires SingleLine(s)
    ensures SingleLine(Trim(s))
  {
    var t := TrimStart(s);
    assert t == s[|s| - |t|..];
    var u := TrimEnd(t);
    assert u == t[..|u|];
  }

  lemma GuidanceSingleLine(s: string)
    requires SingleLine(s)
    ensures SingleLine(s + " guidance")
  {
  }

  /**
   * The skill file reads back as its name, the derived description and the
   * original content unchanged.
   */
  lemma SkillRoundTrip(content: string, skillName: string)
    requires SingleLine(skillName)
    ensures ParseSkill(ConvertRuleToSkill(content, skillName))
              == Some(SkillDoc(skillName, Description(content, skillName), content))
  {
    DescriptionSingleLine(content, skillName);
    var d := Description(content, skillName);
    FrontmatterRoundTrip(skillName, d, content);
  }

  // ---------------------------------------------------------------------
  // How the description is chosen
  // ---------------------------------------------------------------------

  /** Without any top-level heading the description falls back to the skill name. */
  lemma DescriptionWithoutHeading(content: string, skillName: string)
    requires forall p: nat, k: nat :: !HeadingAt(content, p, k)
    ensures Description(content, skillName) == skillName + " guidance"
  {
    FirstHeadingExists(content);
  }

  /** With a heading, the description comes from the chosen match's text and not from the skill name. */
  lemma DescriptionFromHeading(content: string, skillName: string, p: nat, k: nat)
    requires ChosenMatch(content, 0, p, k)
    ensures Description(content, skillName) == Trim(StripRuleSuffix(Capture(content, p, k))) + " guidance"
  {
    FirstHeadingIsChosen(content, p, k);
  }

  /**
   * A "#" at a line start that is not followed by whitespace starts no
   * heading, so a file whose hash lines all read like "## Section" or "#tag"
   * gets the fallback description.
   */
  lemma NoHashSpaceMeansFallback(content: string, skillName: string)
    requires forall p: nat :: p + 1 < |content| && AtLineStart(content, p) && content[p] == '#'
               ==> !IsWhitespace(content[p + 1])
    ensures Description(content, skillName) == skillName + " guidance"
  {
    forall p: nat, k: nat
      ensures !HeadingAt(content, p, k)
    {
      if p + 1 < |content| && AtLineStart(content, p) && content[p] == '#' {
        assert !IsWhitespace(content[p + 1]);
      }
    }
    DescriptionWithoutHeading(content, skillName);
  }

  /**
   * A "#" at the start of the file, whitespace (which may span blank lines),
   * then text that starts with a non-blank character: that text, up to the
   * end of its line, is the heading.
   */
  lemma HeadingAfterHash(space: string, heading: string, rest: string)
    requires |space| >= 1 && AllWhitespace(space)
    requires |heading| >= 1 && !IsWhitespace(heading[0]) && SingleLine(heading)
    requires |rest| == 0 || IsLineTerminator(rest[0])
    ensures FirstHeading("#" + space + heading + rest) == Some(heading)
  {
    var s := "#" + space + heading + rest;
    var k := |space|;
    var n := |heading|;
    assert forall j :: 1 <= j < 1 + k ==> s[j] == space[j - 1];
    assert forall j :: 1 + k <= j < 1 + k + n ==> s[j] == heading[j - 1 - k];
    assert HeadingAt(s, 0, k);
    forall k': nat | k < k' ensures !HeadingAt(s, 0, k') {
      assert !IsWhitespace(s[1 + k]);
    }
    assert 1 + k + n < |s| ==> s[1 + k + n] == rest[0];
    assert DotRun(s, 1 + k) == n;
    assert s[1 + k..1 + k + n] == heading;
    FirstHeadingIsChosen(s, 0, k);
  }

  /** The word "Rules" or "Rule" in any letter case. */
  predicate IsRuleWord(word: string) {
    (|word| == 5 && WordAt(word, 0, "rules")) || (|word| == 4 && WordAt(word, 0, "rule"))
  }

  lemma RuleWordSingleLine(word: string)
    requires IsRuleWord(word)
    ensures SingleLine(word) && |word| >= 1 && !IsWhitespace(word[|word| - 1])
  {
    forall c | c in word ensures !IsLineTerminator(c) {
      var j :| 0 <= j < |word| && word[j] == c;
      if |word| == 5 { assert SameLetter(word[0 + j], "rules"[j]); }
      else { assert SameLetter(word[0 + j], "rule"[j]); }
    }
    if |word| == 5 { assert SameLetter(word[0 + 4], "rules"[4]); }
    else { assert SameLetter(word[0 + 3], "rule"[3]); }
  }

  /** The "Rules"/"Rule" word at the end of "<title> <word>" is what the suffix expression removes. */
  lemma StripRuleWord(title: string, word: string)
    requires IsRuleWord(word)
    ensures StripRuleSuffix(title + " " + word) == title + " "
  {
    var h := title + " " + word;
    var w := |word|;
    assert forall j :: 0 <= j < w ==> h[|h| - w + j] == word[j];
    if w == 5 {
      assert EndsWithWord(h, "rules");
    } else {
      assert EndsWithWord(h, "rule");
    }
    assert h[..|h| - w] == title + " ";
  }

  /** One trailing space is trimmed away from otherwise trimmed text. */
  lemma TrimTrailingSpace(text: string)
    requires |text| >= 1 && !IsWhitespace(text[0]) && !IsWhitespace(text[|text| - 1])
    ensures Trim(text + " ") == text
  {
    assert TrimStart(text + " ") == text + " ";
    assert (text + " ")[..|text|] == text;
  }

  /** A title with no whitespace at either end. */
  predicate IsTitle(title: string) {
    |title| >= 1 && !IsWhitespace(title[0]) && !IsWhitespace(title[|title| - 1]) && SingleLine(title)
  }

  lemma TitleLineSingleLine(title: string, word: string)
    requires IsTitle(title) && IsRuleWord(word)
    ensures SingleLine(title + " " + word) && !IsWhitespace((title + " " + word)[0])
  {
    RuleWordSingleLine(word);
  }

  /** The description of a file whose first heading is known. */
  lemma DescriptionOfHeading(content: string, skillName: string, heading: string)
    requires FirstHeading(content) == Some(heading)
    ensures Description(content, skillName) == Trim(StripRuleSuffix(heading)) + " guidance"
  {
  }

  /** A first line "# <heading>" whose heading starts with a non-blank character is the heading. */
  lemma HeadingLine(heading: string, rest: string)
    requires |heading| >= 1 && !IsWhitespace(heading[0]) && SingleLine(heading)
    requires |rest| == 0 || IsLineTerminator(rest[0])
    ensures FirstHeading("# " + heading + rest) == Some(heading)
  {
    assert "#" + " " == "# ";
    HeadingAfterHash(" ", heading, rest);
  }

  /**
   * A rule file opening with "# <title> Rules" (or "Rule", in any letter case)
   * is described as "<title> guidance": "# Testing Rules" gives "Testing guidance".
   */
  lemma RulesHeadingDescription(title: string, word: string, rest: string, skillName: string)
    requires IsTitle(title) && IsRuleWord(word)
    requires |rest| == 0 || IsLineTerminator(rest[0])
    ensures Description("# " + (title + " " + word) + rest, skillName) == title + " guidance"
  {
    var heading := title + " " + word;
    TitleLineSingleLine(title, word);
    HeadingLine(heading, rest);
    DescriptionOfHeading("# " + heading + rest, skillName, heading);
    StripRuleWord(title, word);
    TrimTrailingSpace(title);
  }

  /** Text ending in a space has no "Rule"/"Rules" suffix to strip. */
  lemma SpaceEndBlocksStrip(text: string)
    requires |text| >= 1 && text[|text| - 1] == ' '
    ensures StripRuleSuffix(text) == text
  {
    if |text| >= 5 {
      assert !SameLetter(text[|text| - 5 + 4], "rules"[4]);
    }
    if |text| >= 4 {
      assert !SameLetter(text[|text| - 4 + 3], "rule"[3]);
    }
  }

  /**
   * Whitespace after the word blocks its removal, because the suffix is
   * stripped before the heading is trimmed: "# Testing Rules " is described
   * as "Testing Rules guidance".
   */
  lemma TrailingSpaceKeepsRuleWord(title: string, word: string, rest: string, skillName: string)
    requires IsTitle(title) && IsRuleWord(word)
    requires |rest| == 0 || IsLineTerminator(rest[0])
    ensures Description("# " + (title + " " + word + " ") + rest, skillName) == title + " " + word + " guidance"
  {
    var line := title + " " + word;
    var heading := line + " ";
    TitleLineSingleLine(title, word);
    assert SingleLine(heading);
    HeadingLine(heading, rest);
    DescriptionOfHeading("# " + heading + rest, skillName, heading);
    SpaceEndBlocksStrip(heading);
    RuleWordSingleLine(word);
    TrimTrailingSpace(line);
  }
}
