/**
 * The top-level loop: every (template path, plugin name) pair of the
 * mapping table, in declaration order, converts the template when it exists
 * and is skipped with a warning when it does not.
 */
module Driver {
  import opened Options
  import opened Plugin
  import opened Merge

  /** The plugin directory under `name`, if there is one. */
  function Existing(plugins: map<string, PluginOut>, name: string): Option<PluginOut> {
    if name in plugins then Some(plugins[name]) else None
  }

  /** The plugin names of the entries whose template exists. */
  function Converted(root: map<string, Template>, mapping: seq<(string, string)>): set<string> {
    set i | 0 <= i < |mapping| && mapping[i].0 in root :: mapping[i].1
  }

  /**
   * The `for … of Object.entries(TEMPLATE_MAPPING)` loop over the plugins
   * directory: entries whose template is missing change nothing; every
   * other plugin directory is left as it was.
   */
  function Run(plugins: map<string, PluginOut>, root: map<string, Template>,
               mapping: seq<(string, string)>, table: map<string, string>): (r: map<string, PluginOut>)
    ensures r.Keys == plugins.Keys + Converted(root, mapping)
    ensures Untouched(plugins, Converted(root, mapping), r)
    decreases |mapping|
  {
    if |mapping| == 0 then plugins
    else
      ConvertedOfTail(root, mapping);
      var next := Step(plugins, root, mapping[0], table);
      var r := Run(next, root, mapping[1..], table);
      UntouchedCompose(plugins, StepNames(root, mapping[0]), next, Converted(root, mapping[1..]), r);
      r
  }

  /** The plugin name one iteration may write: none when the template is missing. */
  function StepNames(root: map<string, Template>, entry: (string, string)): set<string> {
    if entry.0 in root then {entry.1} else {}
  }

  /** One iteration: convert the entry's template into its plugin, or skip a missing template. */
  function Step(plugins: map<string, PluginOut>, root: map<string, Template>,
                entry: (string, string), table: map<string, string>): (r: map<string, PluginOut>)
    ensures r.Keys == plugins.Keys + StepNames(root, entry)
    ensures Untouched(plugins, StepNames(root, entry), r)
  {
    var (path, name) := entry;
    if path in root then plugins[name := ConvertTemplate(Existing(plugins, name), root[path], name, table, root)]
    else plugins
  }

  lemma ConvertedOfTail(root: map<string, Template>, mapping: seq<(string, string)>)
    requires |mapping| > 0
    ensures Converted(root, mapping)
            == StepNames(root, mapping[0]) + Converted(root, mapping[1..])
  {
    var tail := mapping[1..];
    forall name | name in Converted(root, tail) ensures name in Converted(root, mapping) {
      var i :| 0 <= i < |tail| && tail[i].0 in root && tail[i].1 == name;
      assert mapping[i + 1] == tail[i];
    }
    forall name | name in Converted(root, mapping)
      ensures name in StepNames(root, mapping[0]) + Converted(root, tail)
    {
      var i :| 0 <= i < |mapping| && mapping[i].0 in root && mapping[i].1 == name;
      if i > 0 {
        assert tail[i - 1] == mapping[i];
      }
    }
  }

  /** No two entries of the mapping table name the same plugin. */
  ghost predicate DistinctPlugins(mapping: seq<(string, string)>) {
    forall i, j :: 0 <= i < j < |mapping| ==> mapping[i].1 != mapping[j].1
  }

  /**
   * With distinct plugin names the entries do not interfere: each plugin
   * whose template exists is exactly `convertTemplate` applied to the
   * directory as it was before the run.
   */
  lemma {:induction false} RunConvertsEach(plugins: map<string, PluginOut>, root: map<string, Template>,
                                           mapping: seq<(string, string)>, table: map<string, string>, i: nat)
    requires DistinctPlugins(mapping)
    requires i < |mapping| && mapping[i].0 in root
    ensures var name := mapping[i].1;
            && name in Run(plugins, root, mapping, table)
            && Run(plugins, root, mapping, table)[name]
               == ConvertTemplate(Existing(plugins, name), root[mapping[i].0], name, table, root)
    decreases |mapping|
  {
    if i == 0 {
      FirstEntryConverted(plugins, root, mapping, table);
    } else {
      var tail := mapping[1..];
      var next := Step(plugins, root, mapping[0], table);
      DistinctTail(mapping);
      assert tail[i - 1] == mapping[i];
      RunConvertsEach(next, root, tail, table, i - 1);
      assert Existing(next, mapping[i].1) == Existing(plugins, mapping[i].1);
    }
  }

  /** The first entry's plugin is written once and no later entry touches it. */
  lemma FirstEntryConverted(plugins: map<string, PluginOut>, root: map<string, Template>,
                            mapping: seq<(string, string)>, table: map<string, string>)
    requires DistinctPlugins(mapping)
    requires |mapping| > 0 && mapping[0].0 in root
    ensures var name := mapping[0].1;
            && name in Run(plugins, root, mapping, table)
            && Run(plugins, root, mapping, table)[name]
               == ConvertTemplate(Existing(plugins, name), root[mapping[0].0], name, table, root)
  {
    var tail := mapping[1..];
    var next := Step(plugins, root, mapping[0], table);
    DistinctTail(mapping);
    var name := mapping[0].1;
    NotConverted(root, tail, name);
    assert next == plugins[name := ConvertTemplate(Existing(plugins, name), root[mapping[0].0], name, table, root)];
    var r := Run(next, root, tail, table);
    assert Run(plugins, root, mapping, table) == r;
    assert name in next && name !in Converted(root, tail);
  }

  /** A plugin name no entry carries is not converted. */
  lemma NotConverted(root: map<string, Template>, mapping: seq<(string, string)>, name: string)
    requires forall j :: 0 <= j < |mapping| ==> mapping[j].1 != name
    ensures name !in Converted(root, mapping)
  {
  }

  /** The rest of a table with distinct plugin names has distinct names, none of them the first entry's. */
  lemma DistinctTail(mapping: seq<(string, string)>)
    requires |mapping| > 0 && DistinctPlugins(mapping)
    ensures DistinctPlugins(mapping[1..])
    ensures forall j :: 0 <= j < |mapping| - 1 ==> mapping[1..][j].1 != mapping[0].1
  {
    var tail := mapping[1..];
    forall a, b | 0 <= a < b < |tail| ensures tail[a].1 != tail[b].1 {
      assert tail[a] == mapping[a + 1] && tail[b] == mapping[b + 1];
    }
    forall j | 0 <= j < |tail| ensures tail[j].1 != mapping[0].1 {
      assert tail[j] == mapping[j + 1];
    }
  }
}
