# Cluster configuration parser, modelled in Dafny

Accumulo's `ClusterConfigParser` reads the cluster layout file (`cluster.yaml`)
and prints it as shell variables for the start-up scripts. It does this in two steps.

1. **Flattening** (`parseConfiguration`, `flatten`, `addTheDot`). The loaded YAML
   tree of strings, lists and maps becomes a flat map from dotted keys to string values:
   - a string is stored at its dotted path;
   - a list of strings is stored once, as its elements separated by spaces;
   - every other list element is flattened under the list's own key;
   - a map extends the dotted prefix;
   - any other value makes `flatten` throw: a RuntimeException "Unhandled object type",
     or a NullPointerException for a null value (`value.getClass()` on null).
2. **Emitting** (`outputShellVariables`). The flat map is printed as `NAME="value"`
   lines in a fixed order:
   - `MANAGER_HOSTS`, `MONITOR_HOSTS`, `GC_HOSTS`, `TSERVER_HOSTS` from the four
     sections. A missing `manager` or `tserver` is fatal; a missing `monitor` or
     `gc` is skipped.
   - `COORDINATOR_HOSTS` and `COMPACTION_QUEUES`, each when its key is present.
   - One `COMPACTOR_HOSTS_<queue>` line for each space-separated queue name that has
     a `compaction.compactor.<queue>` entry.

The project has these modules:

- `YamlTree` (yaml_tree.dfy): the loaded value tree.
  - `Node` is `Str`, `Lst`, `Obj` (a `Map` with its entries in iteration order) or
    `Scalar` (any other value, with its Java rendering).
  - `Render` is Java's `toString` of such a tree.
- `JavaText` (java_text.dfy): the Java string operations the parser uses, with their
  round-trip lemmas:
  - `endsWith`;
  - `replace(", ", " ")`;
  - `split(" ")`, with Java's rule that trailing empty pieces are dropped;
  - `toUpperCase`;
  - two specification helpers that the parser does not call: `IsPrefix` (a key starts
    with a path), used by the write-frame lemmas, and `Join` (elements with a separator
    between neighbours), which stands for the ", " separators a list's `toString` writes
    and for the space-joined values the properties state.
- `Flattener` (flattener.dfy): the flattening step.
  - Specification: the functions `FlatNode`, `FlatItems` and `FlatEntries` give the
    puts a `flatten` call makes into the map. They also give the puts made before a
    throw.
  - Implementation: `Flatten` is an imperative recursive method over a `Results` object
    that owns the `HashMap`. It is proved equal to that specification.
  - `ParseConfiguration` runs the top-level loop, calling `Flatten` with parent `""`
    on each entry.
- `FlattenerProperties` (flattener_properties.dfy): what flattening promises.
  - Dotted keys, with no doubled dot.
  - Space-joined string lists.
  - Element-wise flattening of other lists.
  - Failure exactly on unhandled value types.
  - Each call writing only under its own path.
- `ShellEmitter` (shell_emitter.dfy): the emitting step.
  - Specification: `ShellVariables` gives the printed assignments and the missing
    required section, if any.
  - Implementation: the loop methods `OutputSections`, `OutputCompactionVariables`,
    `OutputQueueVariables` and `OutputShellVariables` build the printed lines and are
    proved to print `FormatAll` of that specification. `OutputSections` is proved
    against `SectionLoop`, a recursive reading of the for-each loop, and
    `SectionLoopMeetsSectionLines` ties that to the declarative section output.
- `ShellEmitterProperties` (shell_emitter_properties.dfy): what emitting promises.
  - Which absences are fatal.
  - For every variable name, exactly when it is printed and with which value.
- `ClusterConfig` (cluster_config.dfy): both steps together.
  - A YAML list of queue names is flattened to `compaction.compactor.queue`.
  - The emitter splits that value back into the same names.

## Model

| member | source | states |
|---|---|---|
| Flattener.AddTheDot | core/src/main/java/org/apache/accumulo/core/conf/cluster/ClusterConfigParser.java:52-54 | the suffix is empty exactly when the key ends with a dot, and is a single dot otherwise |
| Flattener.ParentPrefix | core/src/main/java/org/apache/accumulo/core/conf/cluster/ClusterConfigParser.java:58-59 | no contract of its own (its shape is stated by `ParentPrefixShape`): the body is the `parent` computation, "" for an empty parent key and otherwise the key plus `addTheDot` |
| Flattener.FlatNode | core/src/main/java/org/apache/accumulo/core/conf/cluster/ClusterConfigParser.java:56-81 | no contract: the body is the specification of one flatten call, giving the map after it and whether it threw. A string is put under parent+key; a list goes to `FlatItems`; a map goes to `FlatEntries` under parent+key; anything else throws. Its properties are the FlattenerProperties lemmas |
| Flattener.ListValue | core/src/main/java/org/apache/accumulo/core/conf/cluster/ClusterConfigParser.java:65-68 | no contract: the body is the stored value of a list with a string element, its `toString` without the first and last characters, with ", " replaced by " " |
| Flattener.FlatItems | core/src/main/java/org/apache/accumulo/core/conf/cluster/ClusterConfigParser.java:63-73 | no contract: the body is the forEach over a list from index i. A string element puts `ListValue` under parent+key and moves on; any other element is flattened with `parent` as its parent key; the loop stops at the first throw |
| Flattener.FlatEntries | core/src/main/java/org/apache/accumulo/core/conf/cluster/ClusterConfigParser.java:74-77 | no contract: the body is the forEach over a map's entries from index i, each flattened under the prefix parent+key, stopping at the first throw |
| Flattener.ParseDocument | core/src/main/java/org/apache/accumulo/core/conf/cluster/ClusterConfigParser.java:47 | no contract: the body is the top-level forEach, flattening each entry with parent "" into an empty map, and None when a flatten throws |
| Flattener.ParentPrefixShape | core/src/main/java/org/apache/accumulo/core/conf/cluster/ClusterConfigParser.java:58-59 | the parent of an empty key is empty. Otherwise it starts with the parent key, ends in a dot and adds at most one character. It never introduces a doubled dot |
| Flattener.Results.constructor | core/src/main/java/org/apache/accumulo/core/conf/cluster/ClusterConfigParser.java:43 | the results map starts empty |
| Flattener.Results.Put | core/src/main/java/org/apache/accumulo/core/conf/cluster/ClusterConfigParser.java:61 | HashMap.put: the key now maps to the new value and every other key is unchanged |
| Flattener.Flatten | core/src/main/java/org/apache/accumulo/core/conf/cluster/ClusterConfigParser.java:56-81 | the recursive flatten returns normally exactly when the specification `FlatNode` says Done. The map afterwards equals the specification's map, including the entries put before a throw |
| Flattener.ParseConfiguration | core/src/main/java/org/apache/accumulo/core/conf/cluster/ClusterConfigParser.java:42-50 | the top-level loop over the document's entries, each flattened with parent "", yields exactly `ParseDocument`. It yields None when a flatten throws |
| FlattenerProperties.PrefixIdempotent | core/src/main/java/org/apache/accumulo/core/conf/cluster/ClusterConfigParser.java:52-59 | computing the parent twice gives the same parent as once. A plain key gains exactly one dot, and a key ending in a dot gains nothing |
| FlattenerProperties.SamePrefixFlatAlike | core/src/main/java/org/apache/accumulo/core/conf/cluster/ClusterConfigParser.java:58-59 | flatten uses its parent key only through the computed parent, so two parent keys with the same parent flatten alike |
| FlattenerProperties.FlatNodeNormalizesParent | core/src/main/java/org/apache/accumulo/core/conf/cluster/ClusterConfigParser.java:70-72 | passing an already-computed parent back into flatten, as the list case does, changes nothing |
| FlattenerProperties.DotAfterPlainSegment | core/src/main/java/org/apache/accumulo/core/conf/cluster/ClusterConfigParser.java:52-59 | after a key without a trailing dot, the parent is that key plus one dot |
| FlattenerProperties.JoinFront | core/src/main/java/org/apache/accumulo/core/conf/cluster/ClusterConfigParser.java:74-77 | the dotted path splits into the first key's parent and the dotted path of the remaining keys |
| FlattenerProperties.SingleEntryMap | core/src/main/java/org/apache/accumulo/core/conf/cluster/ClusterConfigParser.java:74-77 | a one-entry map is flattened as its entry under the prefix parent+key |
| FlattenerProperties.NestOneLevel | core/src/main/java/org/apache/accumulo/core/conf/cluster/ClusterConfigParser.java:74-77 | a value under a map keyed by the next key is flattened with the outer key moved into its parent |
| FlattenerProperties.SingleEntryDocument | core/src/main/java/org/apache/accumulo/core/conf/cluster/ClusterConfigParser.java:47 | a one-entry document is parsed as that entry flattened with parent "" |
| FlattenerProperties.DottedPathOfLastKey | core/src/main/java/org/apache/accumulo/core/conf/cluster/ClusterConfigParser.java:58-61 | the last key under the dotted path of the keys before it gives the whole dotted path |
| FlattenerProperties.NestedUnderDottedParent | core/src/main/java/org/apache/accumulo/core/conf/cluster/ClusterConfigParser.java:74-77 | a value under nested single-entry maps k1 → … → kn is flattened as the value alone, with key kn and parent "k1.….k(n-1).". Every key but the last must be non-empty without a trailing dot; the last may be anything |
| FlattenerProperties.OuterKeyIntoParent | core/src/main/java/org/apache/accumulo/core/conf/cluster/ClusterConfigParser.java:74-77 | the induction step of the above: moving the outer key into the parent and then flattening under the inner keys is flattening under all keys |
| FlattenerProperties.TopLevelNestedString | core/src/main/java/org/apache/accumulo/core/conf/cluster/ClusterConfigParser.java:47 | a string nested under maps k1 → … → kn parses to exactly one entry, "k1.k2.….kn", holding the unchanged string. At the top level there is no leading dot |
| FlattenerProperties.NestedStringFlattened | core/src/main/java/org/apache/accumulo/core/conf/cluster/ClusterConfigParser.java:58-61 | a string nested under maps k1 → … → kn is put, with parent "", under the key "k1.….kn" and nothing else |
| FlattenerProperties.StringEntriesStored | core/src/main/java/org/apache/accumulo/core/conf/cluster/ClusterConfigParser.java:60-62 | a run of top-level string entries with distinct keys stores each value under its own key and writes no other key |
| FlattenerProperties.TopLevelStringsStoredUnderOwnKeys | core/src/main/java/org/apache/accumulo/core/conf/cluster/ClusterConfigParser.java:47 | a document of string entries with distinct keys parses successfully. Each value is stored under its own key, with no prefix, and there are no other keys |
| FlattenerProperties.RenderedStrings | core/src/main/java/org/apache/accumulo/core/conf/cluster/ClusterConfigParser.java:67 | the rendered items of a list of strings are the strings joined by ", " |
| FlattenerProperties.StringListValue | core/src/main/java/org/apache/accumulo/core/conf/cluster/ClusterConfigParser.java:66-68 | the stored value of a list of strings, none containing ", ", is the strings joined by single spaces |
| FlattenerProperties.AllStringItems | core/src/main/java/org/apache/accumulo/core/conf/cluster/ClusterConfigParser.java:64-69 | for a list of strings, each element puts the same value under parent+key. The list ends with exactly one entry when it is non-empty, and none when it is empty |
| FlattenerProperties.StringListStoredSpaceJoined | core/src/main/java/org/apache/accumulo/core/conf/cluster/ClusterConfigParser.java:63-69 | a list of strings stores one entry under the list's own key, holding its elements joined by single spaces. An empty list stores nothing |
| FlattenerProperties.CommaInsideElementIsReplaced | core/src/main/java/org/apache/accumulo/core/conf/cluster/ClusterConfigParser.java:66-68 | the ", " replacement also rewrites text inside an element: the list ["a, b"] stores "a b" |
| FlattenerProperties.NonStringItems | core/src/main/java/org/apache/accumulo/core/conf/cluster/ClusterConfigParser.java:70-72 | the elements of a list without strings are flattened one after another under the same parent and key |
| FlattenerProperties.NonStringListFlattenedElementwise | core/src/main/java/org/apache/accumulo/core/conf/cluster/ClusterConfigParser.java:63-73 | a list without strings is flattened like the reference `FlatEach`: each element in turn, under the list's key, with no index in the key, stopping at the first failure |
| FlattenerProperties.NodeFailsIffScalar | core/src/main/java/org/apache/accumulo/core/conf/cluster/ClusterConfigParser.java:78-80 | flatten throws exactly when the tree holds a value that is not a String, List or Map |
| FlattenerProperties.ItemsFailIffScalar | core/src/main/java/org/apache/accumulo/core/conf/cluster/ClusterConfigParser.java:63-73 | the loop over a list's elements throws exactly when one of the remaining elements holds such a value |
| FlattenerProperties.EntriesFailIffScalar | core/src/main/java/org/apache/accumulo/core/conf/cluster/ClusterConfigParser.java:74-77 | the loop over a map's entries throws exactly when one of the remaining values holds such a value |
| FlattenerProperties.DocumentFailsIffScalar | core/src/main/java/org/apache/accumulo/core/conf/cluster/ClusterConfigParser.java:47 | parsing fails exactly when some top-level value holds a value that is not a String, List or Map |
| FlattenerProperties.NodeWritesOnlyUnderItsPath | core/src/main/java/org/apache/accumulo/core/conf/cluster/ClusterConfigParser.java:56-81 | flatten(parentKey, key, …) leaves every key that does not start with parent+key as it was |
| FlattenerProperties.ItemsWriteOnlyUnderPath | core/src/main/java/org/apache/accumulo/core/conf/cluster/ClusterConfigParser.java:63-73 | the list loop writes only keys that start with parent+key |
| FlattenerProperties.EntriesWriteOnlyUnderPrefix | core/src/main/java/org/apache/accumulo/core/conf/cluster/ClusterConfigParser.java:74-77 | the map loop writes only keys that start with the map's prefix |
| FlattenerProperties.TopLevelWritesUnderTheirKeys | core/src/main/java/org/apache/accumulo/core/conf/cluster/ClusterConfigParser.java:47 | the top-level loop writes only keys that start with one of the remaining top-level keys |
| FlattenerProperties.EveryKeyStartsWithATopLevelKey | core/src/main/java/org/apache/accumulo/core/conf/cluster/ClusterConfigParser.java:47 | every key of a parsed configuration starts with one of the document's top-level keys |
| YamlTree.Render | core/src/main/java/org/apache/accumulo/core/conf/cluster/ClusterConfigParser.java:67-68 | a list renders as at least "[]", bracketed, so stripping its first and last characters is well defined |
| YamlTree.RenderItems | core/src/main/java/org/apache/accumulo/core/conf/cluster/ClusterConfigParser.java:67 | no contract: the body renders a list's elements from index i, separated by ", ", as `AbstractCollection.toString` does |
| YamlTree.RenderEntries | core/src/main/java/org/apache/accumulo/core/conf/cluster/ClusterConfigParser.java:67 | no contract: the body renders a map's entries `k=v` from index i, separated by ", ", as `AbstractMap.toString` does for a map inside a list |
| JavaText.Join | core/src/main/java/org/apache/accumulo/core/conf/cluster/ClusterConfigParser.java:67 | no contract of its own (`JoinSnoc` and the split and replace lemmas state its properties): the elements with the separator between neighbours |
| JavaText.ReplaceCommaSpace | core/src/main/java/org/apache/accumulo/core/conf/cluster/ClusterConfigParser.java:68 | `replace(", ", " ")` never makes the string longer; `ReplaceTurnsCommaJoinIntoSpaceJoin` states what it does to a ", "-joined list |
| JavaText.Fields | core/src/main/java/org/apache/accumulo/core/conf/cluster/ClusterConfigParser.java:103 | `split(" ", -1)`, the pieces between single spaces with empty pieces kept, has at least one piece; `JoinFields` states that joining them with spaces gives the string back |
| JavaText.SplitOnSpace | core/src/main/java/org/apache/accumulo/core/conf/cluster/ClusterConfigParser.java:103 | no contract: the body is `split(" ")`: a string without a space comes back whole, otherwise its `Fields` without the trailing empty pieces. `SplitUndoesJoin` states the round trip |
| JavaText.AsciiUpper | core/src/main/java/org/apache/accumulo/core/conf/cluster/ClusterConfigParser.java:86 | no contract: the body is `toUpperCase` on ASCII text, each lower-case letter replaced by its upper-case letter; `ShellEmitter.SectionNames` states its result on the four section names |
| JavaText.JoinSnoc | core/src/main/java/org/apache/accumulo/core/conf/cluster/ClusterConfigParser.java:67 | joining one more element at the end adds the separator and that element |
| JavaText.ReplacePassesPlainPiece | core/src/main/java/org/apache/accumulo/core/conf/cluster/ClusterConfigParser.java:68 | replace(", ", " ") leaves a piece without ", " unchanged, unless the piece's final comma meets a following space |
| JavaText.ReplaceTurnsCommaJoinIntoSpaceJoin | core/src/main/java/org/apache/accumulo/core/conf/cluster/ClusterConfigParser.java:68 | replace(", ", " ") turns the ", "-joined elements into the " "-joined elements, when no element contains ", " |
| JavaText.DropTrailingEmpty | core/src/main/java/org/apache/accumulo/core/conf/cluster/ClusterConfigParser.java:103 | split keeps a prefix of the pieces. It ends in a non-empty piece, and everything it drops is empty |
| JavaText.JoinFields | core/src/main/java/org/apache/accumulo/core/conf/cluster/ClusterConfigParser.java:103 | the pieces between single spaces, joined back with spaces, give the original string |
| JavaText.FieldsOfPlainPiece | core/src/main/java/org/apache/accumulo/core/conf/cluster/ClusterConfigParser.java:103 | cutting a space-free piece followed by more text at its spaces glues the piece onto the first piece of the rest |
| JavaText.FieldsOfJoin | core/src/main/java/org/apache/accumulo/core/conf/cluster/ClusterConfigParser.java:103 | cutting a " "-join of space-free names at every space gives back the names |
| JavaText.SplitUndoesJoin | core/src/main/java/org/apache/accumulo/core/conf/cluster/ClusterConfigParser.java:103 | split(" ") of a " "-join of non-empty, space-free names gives back exactly those names |
| ShellEmitter.SectionNames | core/src/main/java/org/apache/accumulo/core/conf/cluster/ClusterConfigParser.java:86 | section.toUpperCase() + "_HOSTS" gives MANAGER_HOSTS, MONITOR_HOSTS, GC_HOSTS and TSERVER_HOSTS |
| ShellEmitter.HostsName | core/src/main/java/org/apache/accumulo/core/conf/cluster/ClusterConfigParser.java:86 | no contract: the body is `section.toUpperCase() + "_HOSTS"`; `SectionNames` states its four values |
| ShellEmitter.Format | core/src/main/java/org/apache/accumulo/core/conf/cluster/ClusterConfigParser.java:38 | no contract: the body is PROPERTY_FORMAT `%s="%s"` applied to a name and a value, without the line separator |
| ShellEmitter.FormatAll | core/src/main/java/org/apache/accumulo/core/conf/cluster/ClusterConfigParser.java:38 | the printed text has one line per assignment; `FormatAllLineByLine` states that line i is assignment i formatted |
| ShellEmitter.Queues | core/src/main/java/org/apache/accumulo/core/conf/cluster/ClusterConfigParser.java:101-103 | no contract: the body is the queue names the loop walks, `split(" ")` of the queue entry when it is present and not empty, none otherwise; `QueuesOfQueueEntry` and `QueueListRoundTrip` state its result |
| ShellEmitter.QueueAssignments | core/src/main/java/org/apache/accumulo/core/conf/cluster/ClusterConfigParser.java:104-109 | no contract: the body is the specification of the per-queue loop, one COMPACTOR_HOSTS_q line per listed q whose hosts are present, in order; `QueueLineIff`, `QueueLineCount` and `QueueLinesNamed` state its properties |
| ShellEmitter.SectionLoop | core/src/main/java/org/apache/accumulo/core/conf/cluster/ClusterConfigParser.java:84-93 | no contract: the body is a recursive reading of the for-each over a section list from position s. A present section adds its line; a missing required one stops the loop and is named; a missing optional one is skipped. `SectionLoopMeetsSectionLines` connects it to `SectionLines` |
| ShellEmitter.SectionLines | core/src/main/java/org/apache/accumulo/core/conf/cluster/ClusterConfigParser.java:84-93 | no contract: the body is the declarative section output: manager line, then the monitor and gc lines if present, then the tserver line, stopping at the first missing required section; `MissingOnlyForRequiredSections`, `LinesBeforeMissingTserver` and `SectionLinesIff` state its properties |
| ShellEmitter.CompactionAssignments | core/src/main/java/org/apache/accumulo/core/conf/cluster/ClusterConfigParser.java:95-110 | no contract: the body is the coordinator line and the queue-list line, each if present, followed by the per-queue lines; `CompactionLinesIff` and `CompactorLineIff` state its properties |
| ShellEmitter.ShellVariables | core/src/main/java/org/apache/accumulo/core/conf/cluster/ClusterConfigParser.java:83-112 | no contract: the body is the whole specification of outputShellVariables: the section lines, and when no required section is missing, the compaction lines after them; `EveryLineAccountedFor` and the iff lemmas state its properties |
| ShellEmitter.SectionsSpelledOut | core/src/main/java/org/apache/accumulo/core/conf/cluster/ClusterConfigParser.java:39 | SECTIONS is manager, monitor, gc, tserver in that order, and exactly manager and tserver are required |
| ShellEmitter.SectionLoopTail | core/src/main/java/org/apache/accumulo/core/conf/cluster/ClusterConfigParser.java:84-93 | the loop from gc on prints the gc line when present and then the tserver line, or stops naming tserver when it is missing |
| ShellEmitter.SectionLoopMeetsSectionLines | core/src/main/java/org/apache/accumulo/core/conf/cluster/ClusterConfigParser.java:84-93 | the loop over SECTIONS, step by step, produces the declarative section output: the manager line, the present monitor and gc lines and the tserver line, stopping at the first missing required section |
| ShellEmitter.QueueStep | core/src/main/java/org/apache/accumulo/core/conf/cluster/ClusterConfigParser.java:104-109 | each queue adds its own line, when its hosts are present, after the lines of the queues before it |
| ShellEmitter.FormatAllAppend | core/src/main/java/org/apache/accumulo/core/conf/cluster/ClusterConfigParser.java:38 | printing one more assignment appends its one line |
| ShellEmitter.FormatAllConcat | core/src/main/java/org/apache/accumulo/core/conf/cluster/ClusterConfigParser.java:38 | printing two runs of assignments in turn prints their lines in turn |
| ShellEmitter.OutputQueueVariables | core/src/main/java/org/apache/accumulo/core/conf/cluster/ClusterConfigParser.java:103-110 | the indexed loop over the split queue names prints exactly the per-queue lines of the specification, in list order |
| ShellEmitter.OutputCompactionVariables | core/src/main/java/org/apache/accumulo/core/conf/cluster/ClusterConfigParser.java:95-110 | prints the coordinator line and the queue-list line when their keys are present, then the per-queue lines of the split queue list, exactly as the specification lists them |
| ShellEmitter.OutputSections | core/src/main/java/org/apache/accumulo/core/conf/cluster/ClusterConfigParser.java:84-93 | the for-each loop over a section list prints each present section's line in order and stops at the first missing required section, naming it; the lines printed before the throw are kept |
| ShellEmitter.OutputShellVariables | core/src/main/java/org/apache/accumulo/core/conf/cluster/ClusterConfigParser.java:83-112 | the printed lines are exactly `FormatAll` of the specification's assignments, and the error is exactly its missing section |
| ShellEmitterProperties.FormatAllLineByLine | core/src/main/java/org/apache/accumulo/core/conf/cluster/ClusterConfigParser.java:38 | line i of the output is `NAME="value"` for assignment i |
| ShellEmitterProperties.MissingOnlyForRequiredSections | core/src/main/java/org/apache/accumulo/core/conf/cluster/ClusterConfigParser.java:84-93 | the output stops with an error exactly when manager or tserver is missing, naming manager first. A missing monitor or gc is never an error, and a missing manager means nothing was printed |
| ShellEmitterProperties.LinesBeforeMissingTserver | core/src/main/java/org/apache/accumulo/core/conf/cluster/ClusterConfigParser.java:84-93 | when tserver is missing, the output stops naming tserver after exactly the manager line, then the monitor line if monitor is present, then the gc line if gc is present, each with its section's value, and nothing else |
| ShellEmitterProperties.CompactorNamesDistinct | core/src/main/java/org/apache/accumulo/core/conf/cluster/ClusterConfigParser.java:106 | two COMPACTOR_HOSTS_ names are equal only for the same queue |
| ShellEmitterProperties.QueueLinesNamed | core/src/main/java/org/apache/accumulo/core/conf/cluster/ClusterConfigParser.java:104-109 | every per-queue line is named COMPACTOR_HOSTS_ followed by a listed queue |
| ShellEmitterProperties.QueueLineIff | core/src/main/java/org/apache/accumulo/core/conf/cluster/ClusterConfigParser.java:104-109 | the queue loop prints COMPACTOR_HOSTS_q="v" exactly when q is listed and compaction.compactor.q is v |
| ShellEmitterProperties.QueueLineCount | core/src/main/java/org/apache/accumulo/core/conf/cluster/ClusterConfigParser.java:104-109 | the queue loop prints one line per listed position whose hosts are present, so a queue listed twice is printed twice |
| ShellEmitterProperties.SectionNamesAreNotCompactionNames | core/src/main/java/org/apache/accumulo/core/conf/cluster/ClusterConfigParser.java:86-106 | none of the section, coordinator and queue-list names is a COMPACTOR_HOSTS_ name |
| ShellEmitterProperties.QueueLinesUseTheirOwnNames | core/src/main/java/org/apache/accumulo/core/conf/cluster/ClusterConfigParser.java:104-109 | no per-queue line uses a section, coordinator or queue-list name |
| ShellEmitterProperties.FixedNamesDistinct | core/src/main/java/org/apache/accumulo/core/conf/cluster/ClusterConfigParser.java:86-99 | the four section names and the coordinator and queue-list names are pairwise distinct |
| ShellEmitterProperties.SectionNamesOnlyFromSections | core/src/main/java/org/apache/accumulo/core/conf/cluster/ClusterConfigParser.java:84-110 | a line named after a section is printed only by the section loop; the compaction part never prints one |
| ShellEmitterProperties.SectionLinesIff | core/src/main/java/org/apache/accumulo/core/conf/cluster/ClusterConfigParser.java:84-86 | when the output completes, each <SECTION>_HOSTS line appears exactly when the section is present, carrying its value |
| ShellEmitterProperties.CompactionLinesIff | core/src/main/java/org/apache/accumulo/core/conf/cluster/ClusterConfigParser.java:95-100 | COORDINATOR_HOSTS is printed exactly when compaction.coordinator is present, with its value. The same holds for COMPACTION_QUEUES and compaction.compactor.queue |
| ShellEmitterProperties.CompactorLineIff | core/src/main/java/org/apache/accumulo/core/conf/cluster/ClusterConfigParser.java:101-110 | when the output completes, COMPACTOR_HOSTS_q="v" appears exactly when q is one of the split queue names and compaction.compactor.q is v |
| ShellEmitterProperties.NoQueueLinesWithoutQueueList | core/src/main/java/org/apache/accumulo/core/conf/cluster/ClusterConfigParser.java:101-102 | when the queue entry is absent or empty, no per-queue line is printed |
| ShellEmitterProperties.EveryLineAccountedFor | core/src/main/java/org/apache/accumulo/core/conf/cluster/ClusterConfigParser.java:83-112 | every printed name is a section, coordinator or queue-list name, or COMPACTOR_HOSTS_ followed by a listed queue |
| ClusterConfig.QueuePath | core/src/main/java/org/apache/accumulo/core/conf/cluster/ClusterConfigParser.java:58-61 | the queue list nested under compaction → compactor lands under compaction.compactor.queue |
| ClusterConfig.QueueNesting | core/src/main/java/org/apache/accumulo/core/conf/cluster/ClusterConfigParser.java:74-77 | the queue list under its two enclosing maps is flattened as the list alone, under the parent "compaction.compactor" |
| ClusterConfig.JoinNotEmpty | core/src/main/java/org/apache/accumulo/core/conf/cluster/ClusterConfigParser.java:102 | a space-join of names whose first is non-empty is not empty, so the queue loop runs |
| ClusterConfig.QueueListFlattened | core/src/main/java/org/apache/accumulo/core/conf/cluster/ClusterConfigParser.java:63-77 | `compaction: {compactor: {queue: [q1, …]}}` is flattened to the one entry compaction.compactor.queue = "q1 … qn" |
| ClusterConfig.QueueListRoundTrip | core/src/main/java/org/apache/accumulo/core/conf/cluster/ClusterConfigParser.java:47 | parsing the queue-list document gives exactly that entry, and outputShellVariables' split of it gives back the listed names |
| ClusterConfig.QueuesOfQueueEntry | core/src/main/java/org/apache/accumulo/core/conf/cluster/ClusterConfigParser.java:101-103 | a non-empty queue entry is split at single spaces into the queue names the loop walks |
| ClusterConfig.AllQueuesPresent | core/src/main/java/org/apache/accumulo/core/conf/cluster/ClusterConfigParser.java:104-109 | with every queue's hosts present, the queue loop prints one line per queue, in order |
| ClusterConfig.EveryListedQueueGetsItsLine | core/src/main/java/org/apache/accumulo/core/conf/cluster/ClusterConfigParser.java:101-110 | the queue list from the cluster file, with every queue's hosts present, prints exactly one COMPACTOR_HOSTS line per listed queue, in list order |

## Left out

- Opening the file and loading the YAML (`parseConfiguration`, core/src/main/java/org/apache/accumulo/core/conf/cluster/ClusterConfigParser.java:42-46). These are file I/O and a foreign library. The model starts from the loaded document, as a sequence of entries in the loader's map iteration order.
- The case where a list element is not a String but contains one. Java's `toString` of a mixed list includes the rendering of its non-string elements. `Render` models this literally, but the properties about string lists only cover lists made entirely of strings.
- `main` (core/src/main/java/org/apache/accumulo/core/conf/cluster/ClusterConfigParser.java:114-120). It checks arguments, calls `System.exit` and writes to standard output.
- The stderr warning for a missing monitor or gc (core/src/main/java/org/apache/accumulo/core/conf/cluster/ClusterConfigParser.java:91). The model only records that no line is printed and no error is raised.
- `out.flush()` and the platform line separator that `%n` appends. Each printed line is modelled without its terminator.
- Flattener.ParentPrefix: does not model a null `parentKey`. Every call in the file passes a non-null string.
- YamlTree.Node: does not model map keys that are not strings (a number or a boolean key). The lambdas at core/src/main/java/org/apache/accumulo/core/conf/cluster/ClusterConfigParser.java:47 and :77 pass each key on as a `String`, so such a key fails the implicit cast with a ClassCastException. Keys are modelled as strings; a null key passes that cast and `parent + key` turns it into the text "null", so it is represented by the string "null".
- YamlTree.Node: does not model a document that is null or not a map. The loaded document is modelled as a list of entries.
- YamlTree.Node: does not model YAML anchors that make the tree cyclic. The tree is finite and acyclic.
- JavaText.AsciiUpper: does not model locale-dependent upper-casing. The model assumes a default locale that upper-cases ASCII letters to ASCII letters. Under a Turkish or Azerbaijani locale, `"monitor".toUpperCase()` is "MONİTOR" (with U+0130), so the Java code would print `MONİTOR_HOSTS` where the model has `MONITOR_HOSTS`.
- RandomVolumeChooser is out of scope: this model covers the cluster configuration parser only.
- The WAL replication system (AccumuloReplicaSystem) is out of scope: this model covers the cluster configuration parser only.
