/**
 * `convertTemplate`: one source template becomes one plugin directory
 * holding generated metadata, one skill per rule file and copies of the
 * command files. Directories are maps from file names to contents; a
 * directory that does not exist is `None`.
 */
module Plugin {
  import opened Options
  import opened Names
  import opened Skill
  import opened Merge

  datatype File = File(name: string, content: string)

  /** `template.json` once parsed. */
  datatype Descriptor = Descriptor(name: string, description: string, includes: seq<string>)

  /** A source template directory: its optional `template.json`, `rules/` and `commands/`. */
  datatype Template = Template(descriptor: Option<Descriptor>, rules: Option<seq<File>>, commands: Option<seq<File>>)

  datatype Author = Author(name: string, email: string)

  /** The generated `plugin.json`. */
  datatype PluginMeta = PluginMeta(
    name: string,
    description: string,
    version: string,
    author: Author,
    homepage: string,
    keywords: seq<string>)

  /** A plugin directory: its metadata, `skills/<name>/SKILL.md` by skill name, and `commands/` by file name. */
  datatype PluginOut = PluginOut(meta: PluginMeta, skills: map<string, string>, commands: map<string, string>)

  const Version: string := "1.0.0"
  const Publisher: Author := Author("regression-io", "ruze@regression.io")
  const Homepage: string := "https://github.com/regression-io/claude-config-plugins"
  const Tag: string := "claude-config"

  // ---------------------------------------------------------------------
  // Descriptor and metadata
  // ---------------------------------------------------------------------

  /** The descriptor used when the template has no `template.json`. */
  function DefaultDescriptor(pluginName: string): (d: Descriptor)
    ensures d.name == pluginName && d.description == "" && d.includes == []
  {
    Descriptor(pluginName, "", [])
  }

  function LoadDescriptor(onDisk: Option<Descriptor>, pluginName: string): (d: Descriptor)
    ensures onDisk.Some? ==> d == onDisk.value
    ensures onDisk.None? ==> d.description == "" && d.includes == [] && d.name == pluginName
  {
    onDisk.GetOr(DefaultDescriptor(pluginName))
  }

  /**
   * `PLUGIN_DESCRIPTIONS[pluginName] || templateJson.description`: the table's
   * entry unless it is missing or empty, in which case the descriptor's.
   */
  function MetaDescription(table: map<string, string>, pluginName: string, d: Descriptor): (r: string)
    ensures pluginName in table && table[pluginName] != "" ==> r == table[pluginName]
    ensures (pluginName !in table || table[pluginName] == "") ==> r == d.description
  {
    if pluginName in table && table[pluginName] != "" then table[pluginName] else d.description
  }

  function Metadata(table: map<string, string>, pluginName: string, d: Descriptor): (m: PluginMeta)
    ensures m.name == pluginName
    ensures m.version == Version && m.author == Publisher && m.homepage == Homepage
    ensures m.description == MetaDescription(table, pluginName, d)
    ensures m.keywords == [Tag, Keyword(pluginName)]
    ensures |m.keywords[1]| == |pluginName| && '-' !in m.keywords[1]
  {
    PluginMeta(pluginName, MetaDescription(table, pluginName, d), Version, Publisher, Homepage,
               [Tag, Keyword(pluginName)])
  }

  /**
   * A template without `template.json` and without a table entry gets an
   * empty description; everything else in the metadata is fixed or derived
   * from the plugin name alone.
   */
  lemma BareTemplateMetadata(table: map<string, string>, pluginName: string)
    requires pluginName !in table
    ensures var m := Metadata(table, pluginName, LoadDescriptor(None, pluginName));
            && m.description == ""
            && m == PluginMeta(pluginName, "", Version, Publisher, Homepage, [Tag, Keyword(pluginName)])
  {
  }

  /** A non-empty table entry decides the description whatever `template.json` says. */
  lemma TableOverridesDescriptor(table: map<string, string>, pluginName: string, d1: Descriptor, d2: Descriptor)
    requires pluginName in table && table[pluginName] != ""
    ensures Metadata(table, pluginName, d1) == Metadata(table, pluginName, d2)
  {
  }

  // ---------------------------------------------------------------------
  // Listings
  // ---------------------------------------------------------------------

  /** `readdirSync(dir).filter(f => f.endsWith('.md'))`, in listing order. */
  function MarkdownFiles(listing: seq<File>): (r: seq<File>)
    ensures forall f :: f in r <==> f in listing && IsMarkdown(f.name)
    ensures |r| <= |listing|
  {
    if |listing| == 0 then []
    else (if IsMarkdown(listing[0].name) then [listing[0]] else []) + MarkdownFiles(listing[1..])
  }

  /** Filtering keeps listing order: filtering a concatenation concatenates the filtered parts. */
  lemma {:induction false} MarkdownFilesAppend(a: seq<File>, b: seq<File>)
    ensures MarkdownFiles(a + b) == MarkdownFiles(a) + MarkdownFiles(b)
    decreases |a|
  {
    if |a| == 0 {
      assert a + b == b;
    } else {
      assert (a + b)[0] == a[0];
      assert (a + b)[1..] == a[1..] + b;
      MarkdownFilesAppend(a[1..], b);
    }
  }

  /** A single file passes the filter exactly when its name ends in ".md". */
  lemma MarkdownFilesSingle(f: File)
    ensures MarkdownFiles([f]) == if IsMarkdown(f.name) then [f] else []
  {
    assert [f][1..] == [];
  }

  /**
   * Where the metadata description comes from: a non-empty table entry,
   * else the description in `template.json`, else the empty default.
   */
  lemma MetadataDescriptionSources(table: map<string, string>, pluginName: string, onDisk: Option<Descriptor>)
    ensures Metadata(table, pluginName, LoadDescriptor(onDisk, pluginName)).description
            == if pluginName in table && table[pluginName] != "" then table[pluginName]
               else if onDisk.Some? then onDisk.value.description
               else ""
  {
  }

  /** The skill written for one rule file: its skill name and the converted text. */
  function SkillEntry(rule: File): (e: (string, string)) {
    var name := SkillName(rule.name);
    (name, ConvertRuleToSkill(rule.content, name))
  }

  function SkillEntries(rules: seq<File>): (r: seq<(string, string)>)
    ensures |r| == |rules| && forall i :: 0 <= i < |rules| ==> r[i] == SkillEntry(rules[i])
  {
    seq(|rules|, i requires 0 <= i < |rules| => SkillEntry(rules[i]))
  }

  function CommandEntries(files: seq<File>): (r: seq<(string, string)>)
    ensures |r| == |files| && forall i :: 0 <= i < |files| ==> r[i] == (files[i].name, files[i].content)
  {
    seq(|files|, i requires 0 <= i < |files| => (files[i].name, files[i].content))
  }

  /** The skills a template's own `rules/` directory contributes, in processing order. */
  function PrimaryEntries(t: Template): seq<(string, string)> {
    if t.rules.Some? then SkillEntries(MarkdownFiles(t.rules.value)) else []
  }

  /** The command files a template's `commands/` directory contributes, under their own names. */
  function CommandCopies(t: Template): seq<(string, string)> {
    if t.commands.Some? then CommandEntries(MarkdownFiles(t.commands.value)) else []
  }

  /** The skills an include contributes; an include or `rules/` directory that does not exist contributes none. */
  function IncludeEntries(root: map<string, Template>, inc: string): Option<seq<(string, string)>> {
    if inc in root && root[inc].rules.Some? then
      Some(SkillEntries(MarkdownFiles(root[inc].rules.value)))
    else
      None
  }

  /** What each include contributes, in include order. */
  function IncludeBatches(root: map<string, Template>, includes: seq<string>): (r: seq<Option<seq<(string, string)>>>)
    ensures |r| == |includes| && forall i :: 0 <= i < |includes| ==> r[i] == IncludeEntries(root, includes[i])
  {
    seq(|includes|, i requires 0 <= i < |includes| => IncludeEntries(root, includes[i]))
  }

  /** Every skill name the includes can contribute. */
  function IncludedNames(root: map<string, Template>, includes: seq<string>): set<string> {
    BatchKeys(IncludeBatches(root, includes))
  }

  // ---------------------------------------------------------------------
  // Merging skills
  // ---------------------------------------------------------------------

  /**
   * The include loop: each include's rules are added in include order, each
   * only when no skill of that name exists yet. Nothing already present
   * changes, so the template's own skills and earlier includes win.
   */
  function IncludeAll(skills: map<string, string>, root: map<string, Template>, includes: seq<string>)
    : (r: map<string, string>)
    ensures r.Keys == skills.Keys + IncludedNames(root, includes)
    ensures Untouched(skills, {}, r)
  {
    AddBatches(skills, IncludeBatches(root, includes))
  }

  /** Processing two lists of includes one after the other is processing their concatenation. */
  lemma IncludeAllAppend(skills: map<string, string>, root: map<string, Template>, a: seq<string>, b: seq<string>)
    ensures IncludeAll(skills, root, a + b) == IncludeAll(IncludeAll(skills, root, a), root, b)
  {
    assert IncludeBatches(root, a + b) == IncludeBatches(root, a) + IncludeBatches(root, b);
    AddBatchesAppend(skills, IncludeBatches(root, a), IncludeBatches(root, b));
  }

  /** A skill added by an earlier include is never replaced by a later one. */
  lemma EarlierIncludeWins(skills: map<string, string>, root: map<string, Template>,
                           a: seq<string>, b: seq<string>, name: string)
    requires name in IncludeAll(skills, root, a)
    ensures name in IncludeAll(skills, root, a + b)
            && IncludeAll(skills, root, a + b)[name] == IncludeAll(skills, root, a)[name]
  {
    IncludeAllAppend(skills, root, a, b);
  }

  // ---------------------------------------------------------------------
  // The whole template
  // ---------------------------------------------------------------------

  /**
   * The skills directory after `convertTemplate`: the template's own rules
   * overwrite what was there, then the includes fill gaps only.
   */
  function MergeSkills(before: map<string, string>, t: Template, d: Descriptor, root: map<string, Template>)
    : (r: map<string, string>)
    ensures r.Keys == before.Keys + Keys(PrimaryEntries(t)) + IncludedNames(root, d.includes)
    ensures LastEntriesWin(PrimaryEntries(t), r)
    ensures Untouched(before, Keys(PrimaryEntries(t)), r)
  {
    var primary := PrimaryEntries(t);
    var mid := if t.rules.Some? then Overwrite(before, primary) else before;
    assert t.rules.None? ==> primary == [] && Keys(primary) == {};
    var r := IncludeAll(mid, root, d.includes);
    WinnersSurvive(primary, mid, r);
    UntouchedTrans(before, Keys(primary), mid, r);
    r
  }

  /** The commands directory after `convertTemplate`: every command file is copied over. */
  function MergeCommands(before: map<string, string>, t: Template): (r: map<string, string>)
    ensures r.Keys == before.Keys + Keys(CommandCopies(t))
    ensures LastEntriesWin(CommandCopies(t), r)
    ensures Untouched(before, Keys(CommandCopies(t)), r)
  {
    assert t.commands.None? ==> CommandCopies(t) == [] && Keys(CommandCopies(t)) == {};
    if t.commands.Some? then Overwrite(before, CommandCopies(t)) else before
  }

  /**
   * `convertTemplate(templatePath, pluginName)` given the plugin directory as
   * it was before (`None` when absent), the template, the description table
   * and the root of all templates (which includes are resolved against).
   * The metadata is always rewritten; the template's own rules overwrite,
   * includes only fill gaps, commands overwrite.
   */
  function ConvertTemplate(prior: Option<PluginOut>, t: Template, pluginName: string,
                           table: map<string, string>, root: map<string, Template>): (r: PluginOut)
    ensures var before := if prior.Some? then prior.value.skills else map[];
            var primary := PrimaryEntries(t);
            && r.skills.Keys == before.Keys + Keys(primary)
                                + IncludedNames(root, LoadDescriptor(t.descriptor, pluginName).includes)
            && LastEntriesWin(primary, r.skills)
            && Untouched(before, Keys(primary), r.skills)
    ensures var before := if prior.Some? then prior.value.commands else map[];
            && r.commands.Keys == before.Keys + Keys(CommandCopies(t))
            && LastEntriesWin(CommandCopies(t), r.commands)
            && Untouched(before, Keys(CommandCopies(t)), r.commands)
    ensures r.meta == Metadata(table, pluginName, LoadDescriptor(t.descriptor, pluginName))
  {
    var d := LoadDescriptor(t.descriptor, pluginName);
    var skills := if prior.Some? then prior.value.skills else map[];
    var commands := if prior.Some? then prior.value.commands else map[];
    PluginOut(Metadata(table, pluginName, d), MergeSkills(skills, t, d, root), MergeCommands(commands, t))
  }

  /**
   * A rule of the template itself whose skill name no other of its rules
   * shares ends up as that skill, whatever the includes or earlier runs
   * provide under the same name.
   */
  lemma PrimaryRuleWins(prior: Option<PluginOut>, t: Template, pluginName: string,
                        table: map<string, string>, root: map<string, Template>, rule: File)
    requires t.rules.Some? && rule in t.rules.value && IsMarkdown(rule.name)
    requires forall g :: g in t.rules.value && IsMarkdown(g.name) && SkillName(g.name) == SkillName(rule.name) ==> g == rule
    ensures var r := ConvertTemplate(prior, t, pluginName, table, root);
            && SkillName(rule.name) in r.skills
            && r.skills[SkillName(rule.name)] == ConvertRuleToSkill(rule.content, SkillName(rule.name))
  {
    var files := MarkdownFiles(t.rules.value);
    var primary := PrimaryEntries(t);
    assert rule in files;
    var i := LastIndex(files, rule);
    forall j | i < j < |primary| ensures primary[j].0 != primary[i].0 {
      assert files[j] in files && files[j] != rule;
    }
    assert LastWithKey(primary, i);
    assert primary[i] == SkillEntry(rule);
  }

  /** The position of the last occurrence of `x` in `s`. */
  lemma LastIndex<T>(s: seq<T>, x: T) returns (i: nat)
    requires x in s
    ensures i < |s| && s[i] == x && forall j :: i < j < |s| ==> s[j] != x
  {
    if s[|s| - 1] == x {
      i := |s| - 1;
    } else {
      assert x in s[..|s| - 1];
      i := LastIndex(s[..|s| - 1], x);
    }
  }

  /**
   * The first include that provides a skill name nobody has yet adds its
   * first rule of that name.
   */
  lemma FirstIncludeFillsGap(skills: map<string, string>, root: map<string, Template>, includes: seq<string>, i: nat)
    requires |includes| > 0 && IncludeEntries(root, includes[0]).Some?
    requires i < |IncludeEntries(root, includes[0]).value|
    requires FirstWithKey(IncludeEntries(root, includes[0]).value, i)
    requires IncludeEntries(root, includes[0]).value[i].0 !in skills
    ensures var e := IncludeEntries(root, includes[0]).value[i];
            && e.0 in IncludeAll(skills, root, includes)
            && IncludeAll(skills, root, includes)[e.0] == e.1
  {
    FirstBatchFillsGap(skills, IncludeBatches(root, includes), i);
  }
}
