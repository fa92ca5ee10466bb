# convert-templates, modelled in Dafny

`convert-templates.js` is a one-shot migration script. It turns
claude-config templates into plugins. For every entry of a fixed mapping
table it reads an optional `template.json` and writes `plugin.json` metadata.
It converts each markdown rule file into a skill by prepending a frontmatter
block, and copies the command files. It then merges in the rules of included
templates on a "skip if already present" basis.

This project models the pure core of that script:

- the rule-to-skill text transform;
- the two regular expressions it relies on, `/^#\s+(.+)$/m` and `/Rules?$/i`;
- the derivations of skill names and keywords from file and plugin names;
- the descriptor defaults and the metadata description rule;
- the merge policy for skills (primary rules overwrite, includes fill gaps in
  include order) and for commands;
- the driver loop over the mapping table.

The filesystem is abstracted. A directory is a `map<string, string>` from
names to contents, or a `seq<File>` listing when it is read. A directory that
does not exist is `None`.

Modules:

| file | module | contents |
|---|---|---|
| options.dfy | `Options` | `Option` |
| text.dfy | `Text` | ECMAScript `LineTerminator`/`WhiteSpace`, `trim` |
| heading.dfy | `Heading` | the heading search and the `Rule(s)` suffix strip, each as a backtracking matcher plus a declarative description |
| skill.dfy | `Skill` | description, frontmatter, `ConvertRuleToSkill`, `ParseSkill` (its inverse) and the properties of the description |
| names.dfy | `Names` | `.md` filter, `indexOf`, `replace` with a string pattern, skill name, keyword |
| merge.dfy | `Merge` | overwriting and first-writer-wins batch writes into a directory map |
| plugin.dfy | `Plugin` | descriptor, metadata, listings, include merge, `ConvertTemplate` |
| driver.dfy | `Driver` | the loop over the mapping table |

Regular-expression semantics follow section 22.2 of ECMA-262:

- `^` and `$` are line anchors under the `m` flag.
- `\s` covers WhiteSpace and LineTerminator (sections 12.2 and 12.3). So `\s+`
  may cross line breaks: `#`, newline, `Text` gives the heading `Text`.
- `.` excludes LF, CR, U+2028 and U+2029.
- Both quantifiers are greedy and give characters back one at a time. The
  model writes that backtracking out and proves two facts about it. `(.+)$`
  only ever succeeds with the whole rest of the line. `\s+` ends up with the
  longest whitespace prefix that leaves a non-terminator after it.
- `/Rules?$/i` has no `m` flag, so its `$` is the end of the heading text. It
  is applied before `trim`, so trailing whitespace blocks it. Under `i`
  without `u`, only the ASCII upper-case forms match the pattern letters.
- `trim` removes the same character set as `\s`.

`rule.replace('.md', '')` uses a string pattern. It removes the first
occurrence of `.md`, which is not always the extension: `a.mdb.md` gives
`ab.md`. The model follows the code.

## Model

| member | source | states |
|---|---|---|
| `Text.Trim` | convert-templates.js:51 | The result is a contiguous slice of the input. Only whitespace was cut on either side. The result neither starts nor ends with whitespace. |
| `Text.TrimIdempotent` | convert-templates.js:51 | Trimming twice is the same as trimming once. |
| `Heading.DotsThenLineEnd` | convert-templates.js:49 | `(.+)$` backtracking returns the longest group length, at least 1, after which `$` holds. It fails only when no such length exists. |
| `Heading.DotsKeepWholeRun` | convert-templates.js:49 | Started on the maximal run of non-terminators, `(.+)$` fails exactly when the run is empty. Otherwise it keeps the whole run. |
| `Heading.WhitespaceThenText` | convert-templates.js:49 | `\s+` backtracking finds a match exactly when some whitespace count up to the current one matches. It returns the largest such count. |
| `Heading.MatchAt` | convert-templates.js:49 | One attempt at position p succeeds iff some whitespace count matches there. Its capture is that of the longest-whitespace match. |
| `Heading.NoLongerWhitespace` | convert-templates.js:49 | No match can use more whitespace than the run following the `#`. |
| `Heading.FindHeading` | convert-templates.js:49 | The search from p returns nothing iff no position at or after p matches. Otherwise it returns the capture of the leftmost match, taken with its longest whitespace. |
| `Heading.FirstHeading` | convert-templates.js:49 | `content.match` finds something iff some position holds a match, and then group 1 is the capture of the leftmost match taken with its longest whitespace. |
| `Heading.ChosenMatchUnique` | convert-templates.js:49 | The leftmost-longest match is unique, so the heading found is determined by the content. |
| `Heading.ChosenMatchFromEarlier` | convert-templates.js:49 | Starting the search one position earlier, at a position that does not match, reports the same match. |
| `Heading.FirstHeadingExists` | convert-templates.js:49-50 | `content.match` is non-null iff some line start holds `#`, at least one whitespace character, then a non-terminator. |
| `Heading.FirstHeadingIsChosen` | convert-templates.js:49-51 | Whenever (p, k) is the leftmost-longest match, the heading text is its capture. |
| `Skill.HeadingLine` | convert-templates.js:49 | A first line `# ` followed by one line of text that starts with a non-blank character yields that text as the heading, whatever the following lines hold. |
| `Heading.RulesSuffixAt` | convert-templates.js:51 | `/Rules?$/i` matches at p iff "rule" in any case starts at p and either ends the text or is followed by a final s/S. The match always ends at the end of the text. |
| `Heading.FindRulesSuffix` | convert-templates.js:51 | The search returns the first matching position at or after p, or nothing when no position matches. |
| `Heading.RulesSuffixPosition` | convert-templates.js:51 | The suffix can only match 4 or 5 characters before the end. Which of the two matches is decided by whether the text ends in "rules" or "rule", ignoring case. |
| `Heading.StripRuleSuffix` | convert-templates.js:51 | A trailing "rules" (any case) loses 5 characters. A trailing "rule" loses 4. Any other text is unchanged. |
| `Skill.ConvertRuleToSkill` | convert-templates.js:45-63 | The original content is an unmodified suffix of the output. The output starts with `---`, LF, `name: `, then the skill name verbatim. |
| `Skill.Description` | convert-templates.js:49-52 | The description always ends in " guidance". Without a heading it is the skill name followed by " guidance". |
| `Skill.Frontmatter` | convert-templates.js:55-60 | The header starts with `---`, LF, `name: ` and ends with `---` and a blank line. Its length is the fixed parts plus the name and description. |
| `Skill.FrontmatterShape` | convert-templates.js:55-60 | For any description, the content is the suffix after the header and the name sits right after the `name: ` prefix. |
| `Skill.FrontmatterRoundTrip` | convert-templates.js:55-60 | Parsing a header built from a one-line name and description, followed by any body, gives back the name, the description and the body. |
| `Skill.SkillRoundTrip` | convert-templates.js:45-63 | For a one-line skill name, parsing the output gives back the name, the derived description and the original content. The content is recovered by dropping the header. |
| `Skill.DescriptionSingleLine` | convert-templates.js:49-52 | The description contains no line terminator when the skill name contains none. |
| `Skill.CleanedHeadingSingleLine` | convert-templates.js:51 | Stripping, trimming and appending " guidance" to one-line heading text gives one-line text. |
| `Skill.DescriptionWithoutHeading` | convert-templates.js:50-52 | With no match anywhere, the description is the skill name followed by " guidance". |
| `Skill.DescriptionFromHeading` | convert-templates.js:49-51 | With leftmost-longest match (p, k), the description is the trimmed, suffix-stripped capture followed by " guidance". |
| `Skill.NoHashSpaceMeansFallback` | convert-templates.js:49-52 | If no `#` at a line start is followed by whitespace, the description falls back to the skill name. This covers files whose only hash lines are `##` lines. |
| `Skill.HeadingAfterHash` | convert-templates.js:49 | A file opening with `#`, then whitespace that may span blank lines, then one line of text starting with a non-blank character, has that text as its heading. |
| `Skill.RuleWordSingleLine` | convert-templates.js:51 | "Rules" or "Rule" in any case is one line and ends in a non-blank character. |
| `Skill.StripRuleWord` | convert-templates.js:51 | `<title> <Rules or Rule, any case>` loses exactly the word and keeps the space. |
| `Skill.TrimTrailingSpace` | convert-templates.js:51 | Trimming already-trimmed text plus one space gives the text back. |
| `Skill.RulesHeadingDescription` | convert-templates.js:49-52 | A file opening with `# <title> Rules` (or `Rule`, any case) is described as `<title> guidance`. For example, `# Testing Rules` gives `Testing guidance`. |
| `Skill.SpaceEndBlocksStrip` | convert-templates.js:51 | Text ending in a space has nothing stripped. |
| `Skill.TrailingSpaceKeepsRuleWord` | convert-templates.js:49-52 | With trailing whitespace after the word, `# <title> Rules ` is described as `<title> Rules guidance`. The strip runs before the trim. |
| `Names.IndexOf` | convert-templates.js:108 | The result is the first occurrence at or after the start index, or nothing when there is none. |
| `Names.IsMarkdown` | convert-templates.js:105 | A name passes the filter iff it has at least three characters and its last three are `.`, `m`, `d`. |
| `Names.ReplaceFirst` | convert-templates.js:108 | Without an occurrence the string is unchanged. Otherwise exactly the first occurrence is replaced. |
| `Names.SkillName` | convert-templates.js:108 | The skill name of a `.md` file is three characters shorter than the file name. A name without `.md` anywhere is kept as it is. |
| `Names.SkillNameDropsExtension` | convert-templates.js:105-108 | For a `.md` file name in which `.md` occurs only as the extension, the skill name is the name minus the extension. |
| `Names.SkillNameRemovesFirstOccurrence` | convert-templates.js:108 | For `<stem>.md<middle>.md`, where the stem has no dot and the middle does not start with one, the skill name is `<stem><middle>.md`. This differs from the name minus its extension. |
| `Names.FirstDotMd` | convert-templates.js:108 | In `<stem>.md<middle>.md` with no dot in the stem, the first `.md` is the one right after the stem. |
| `Names.Keyword` | convert-templates.js:94 | The keyword has the plugin name's length. Each `-` becomes a space and every other character is kept. It contains no `-`. |
| `Names.KeywordIdempotent` | convert-templates.js:94 | A hyphen-free name is its own keyword, and deriving the keyword twice changes nothing. |
| `Merge.Overwrite` | convert-templates.js:107-116 | After an overwriting batch, the keys are the old keys plus the batch's. Each name holds its last entry's content. Names outside the batch are unchanged. |
| `Merge.AddMissing` | convert-templates.js:149-161 | After a first-writer-wins batch, the keys are the old keys plus the batch's. No existing entry changes. A new name holds its first entry's content. |
| `Merge.AddMissingAppend` | convert-templates.js:149-161 | Adding two batches one after the other is adding their concatenation. |
| `Merge.AddBatches` | convert-templates.js:142-167 | After a sequence of first-writer-wins batches, missing ones skipped, the keys are the old keys plus every batch's names, and nothing already present changes. |
| `Merge.AddBatchesAppend` | convert-templates.js:142-167 | Running two sequences of batches one after the other is running their concatenation. |
| `Merge.FirstBatchFillsGap` | convert-templates.js:149-161 | A name the first batch brings and the directory lacks gets that batch's first entry of that name. |
| `Plugin.LoadDescriptor` | convert-templates.js:79-82 | The parsed `template.json` when present. Otherwise the plugin name, an empty description and no includes. |
| `Plugin.DefaultDescriptor` | convert-templates.js:79 | Without `template.json` the descriptor is named after the plugin, has an empty description and has no includes. |
| `Plugin.MetaDescription` | convert-templates.js:87 | The table entry when present and non-empty, otherwise the descriptor's description. |
| `Plugin.Metadata` | convert-templates.js:85-95 | The name is the plugin name, and version, author and homepage are the constants. The description follows the table-then-descriptor rule. The keywords are the fixed tag and the plugin name with every `-` turned into a space, which is as long as the name and hyphen-free. |
| `Plugin.BareTemplateMetadata` | convert-templates.js:79-95 | Without `template.json` or a table entry, the metadata has an empty description and otherwise only constant or name-derived fields. |
| `Plugin.TableOverridesDescriptor` | convert-templates.js:87 | A non-empty table entry makes the metadata independent of `template.json`. |
| `Plugin.MetadataDescriptionSources` | convert-templates.js:79-87 | The metadata description is the non-empty table entry if there is one, else the description in `template.json` if the file exists, else empty. |
| `Plugin.MarkdownFiles` | convert-templates.js:105 | Exactly the listing's files whose names end in `.md` are kept, and nothing else. |
| `Plugin.MarkdownFilesAppend` | convert-templates.js:105 | Filtering a concatenated listing concatenates the filtered parts, so kept files stay in listing order. |
| `Plugin.MarkdownFilesSingle` | convert-templates.js:105 | A single file is kept exactly when its name ends in `.md`. |
| `Plugin.IncludeAll` | convert-templates.js:138-168 | After the include loop, the keys are the old keys plus every name the existing includes contribute. No existing skill changes, and missing include or `rules/` directories contribute nothing. |
| `Plugin.IncludeAllAppend` | convert-templates.js:142-167 | Processing includes a then b is processing a followed by b. |
| `Plugin.EarlierIncludeWins` | convert-templates.js:142-162 | A skill present after the earlier includes keeps its content whatever later includes provide. |
| `Plugin.FirstIncludeFillsGap` | convert-templates.js:149-161 | The first include supplying a name absent so far adds the first of its rules with that name. |
| `Plugin.MergeSkills` | convert-templates.js:103-168 | The skills directory gains the primary and included names. Each primary name holds its last primary rule's skill, even when an include has the same name. Skills not named by a primary rule keep their content. |
| `Plugin.MergeCommands` | convert-templates.js:121-135 | The commands directory gains every `.md` command file. Each holds its last copy's content, and other files are unchanged. |
| `Plugin.ConvertTemplate` | convert-templates.js:68-171 | The final skills are the prior skills plus the primary and included names. Each primary name holds the converted content of its last primary rule. Prior skills not named by a primary rule are unchanged. Commands follow the same overwrite rule. The metadata is rewritten from the descriptor and table. |
| `Plugin.PrimaryRuleWins` | convert-templates.js:103-162 | A template rule whose skill name is unique among its rules becomes that skill, whatever includes or earlier runs provide. |
| `Driver.Run` | convert-templates.js:179-188 | The plugin directories afterwards are the prior ones plus those of every entry whose template exists. Entries whose template is missing are skipped, and other plugins are unchanged. |
| `Driver.Step` | convert-templates.js:180-187 | One table entry adds its plugin name exactly when its template exists, and changes no other plugin. |
| `Driver.RunConvertsEach` | convert-templates.js:179-188 | With distinct plugin names in the table, each existing template's plugin is exactly `ConvertTemplate` applied to that plugin's prior directory. |
| `Driver.FirstEntryConverted` | convert-templates.js:179-188 | The first entry's plugin, when its template exists and no later entry shares its name, ends up as `ConvertTemplate` of its prior directory. |

## Left out

- Filesystem calls (`mkdirSync`, `existsSync`, `readdirSync`, `readFileSync`, `copyFileSync`, `writeFileSync`) are replaced by maps and listings. Empty directories that are created but never written into are not represented.
- The absolute root paths and `path.join` normalisation are left out. Template and include paths are looked up verbatim as keys of the template root map.
- `JSON.parse` and `JSON.stringify` are left out. The descriptor is taken already parsed. A `template.json` without `includes` is modelled as one with an empty list, which behaves the same. A missing or non-string `description` is not modelled.
- Console output is left out, including the per-include count at line 164, which reports every matching file rather than the number added.
- Crash-on-error and partial writes are left out. A failing read or parse aborts the real run and is outside the model.
- The contents of `TEMPLATE_MAPPING` and `PLUGIN_DESCRIPTIONS` are parameters: an ordered sequence of pairs and a map. Lookups of inherited object properties such as `constructor` are not modelled.
- `readdirSync` order is taken as the given listing order.
- Strings are sequences of Unicode scalar values rather than UTF-16 code units. The whitespace and terminator sets used here are all in the Basic Multilingual Plane.
- Skill names are compared exactly as map keys. `path.join(skillsDir, skillName)` at lines 109 and 151 would resolve the files `.md` and `..md` to the skills directory itself rather than to a subdirectory. On a case-insensitive volume, `Foo` and `foo` would also share one directory for the existence check at line 154.
- Determinism of the transform holds by construction, since every operation is a function. No separate lemma states it.
