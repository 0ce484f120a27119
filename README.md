# Serf agent configuration, modelled in Dafny

This project models the configuration core of the Serf agent (`command/agent`). It covers:

- the `Config` record;
- splitting its bind address into an IP and a port (`BindAddrParts`, default port `DefaultBindPort`);
- parsing its event handlers into `{EventFilter, UserEvent, Script}` bindings (`EventScripts`);
- merging two configurations (`MergeConfig`);
- loading the effective configuration from a list of files and directories (`ReadConfigPaths`).

The implementation file of the package is not part of this model. The behaviour modelled is the one its
tests pin down in `command/agent/config_test.go`. Where those tests are silent, the model makes a
choice; each choice is listed under "Modelling choices".

Modules, one per component:

- `Wrappers` — `Option` and `Result`.
- `Errors` — the error values: `InvalidPort`, `EmptyScript`, `DecodeError`, `PathNotFound`.
- `Text` — first occurrence of a separator, decimal numbers, code-point name order (the same as byte order on UTF-8 names), sorting.
- `Address` — `SplitHostPort` (the logic of `Config.BindAddrParts`) and `DefaultBindPort`.
- `EventHandlers` — `ParseEventScript` for one handler and `ParseAll` for a list (the logic of
  `Config.EventScripts`).
- `AgentConfig` — `Config`, with `BindAddrParts` and `EventScripts` as member functions; `MergeConfig`;
  `MergeAll`, the left fold of `MergeConfig` from the empty configuration.
- `Decoder` — `DecodeConfig`: from a parsed document (an object of named members, or malformed) to a
  `Config`.
- `Loader` — the filesystem as a map from path to `File(document)` or `Dir(entry names)`;
  the specification functions `Sources` and `LoadConfig`; the method `ReadConfigPaths`.

`ReadConfigPaths` is written the way the loader works: a loop over the paths and, for a directory, a
loop over its sorted entries, carrying the merged result. The step for one path is `ReadPath`, the
directory loop is `ReadDirectory`, which reads each entry with `ReadDirEntry`. Its postcondition equates its result with
`LoadConfig`. The lemmas about `LoadConfig` state what loading promises.

## Modelling choices

The tests do not cover the inputs below. The model's behaviour on them is a choice, not tested behaviour.

- A bind address is split at its first `:`. So an address with several `:` fails with `InvalidPort`,
  because the text after the first `:` is not all digits.
- A port is a non-empty string of decimal digits. Leading zeros are accepted and do not change
  the value (`Text.ParseLeadingZero`). Anything else fails with
  `InvalidPort`.
- `DefaultBindPort` is 7946. The tests compare against the constant, so the lemmas about the no-port
  case hold for any default port.
- A handler is split at its first `=`. So the script of "a=b=c" is "b=c".
- A handler whose script is empty ("" or "x=") fails with `EmptyScript`.
- "=x.sh" gives filter "": the text before `=` is the filter as written.
- The tests fix only the document key `node_name`. The other keys (`role`, `bind_addr`,
  `event_handlers`, `start_join`) follow the same convention.
- A member holding a value of the wrong kind is a decode error. Members under other keys are ignored.
- Inside a directory, a sub-directory is skipped, even one whose name ends in ".json"; loading is not
  recursive (`Loader.SubdirListingIrrelevant`).
- A ".json" entry that a directory lists but that does not exist fails with `PathNotFound`.
- An entry's path is the directory, then "/", then the name.

## Model

| member | source | states |
|---|---|---|
| Address.SplitHostPort | command/agent/config_test.go:23-39 | a successful split yields an IP with no ':'; the only failure is `InvalidPort` of the address |
| Address.NoPortTakesDefault | command/agent/config_test.go:19 | an address with no ':' is all IP, with the default port |
| Address.BindAddrWithoutPort | command/agent/config_test.go:19 | "0.0.0.0" gives IP "0.0.0.0" and the default port, without error |
| Address.BindAddrWithPort | command/agent/config_test.go:20 | "0.0.0.0:1234" gives IP "0.0.0.0" and port 1234, for every default port |
| Address.SplitWithPort | command/agent/config_test.go:20 | an address without ':' followed by ':' and a decimal port splits into that address and that port |
| Address.SplitJoin | command/agent/config_test.go:20 | splitting "ip:port" gives back that IP and port, whatever the default |
| Address.SplitFailsIff | command/agent/config_test.go:26 | the split fails exactly when the text after the first ':' is not a non-empty digit string |
| AgentConfig.BindAddrPartsTable | command/agent/config_test.go:19-25 | `Config.BindAddrParts` on both rows of the test table |
| AgentConfig.Config.BindAddrParts | command/agent/config_test.go:24-25 | an address without ':' takes `DefaultBindPort`; a returned IP holds no ':'; failure is `InvalidPort` of the address |
| Text.IndexOf | command/agent/config_test.go:47 | the result is the position of the first occurrence, or none exactly when there is none |
| Text.IndexOfAfterPrefix | command/agent/config_test.go:47 | in `p + [c] + s`, with no `c` in `p`, the first `c` comes right after `p` |
| Text.ParseDecimal | command/agent/config_test.go:20 | decimal parsing succeeds exactly on non-empty strings of digits |
| Text.ShowNat | command/agent/config_test.go:20 | a number's digits are non-empty, all digits, with no leading zero |
| Text.ParseShowNat | command/agent/config_test.go:20 | parsing a number's decimal digits gives the number back |
| Text.ParseLeadingZero | command/agent/config_test.go:20 | a leading zero does not change what a port string reads as, or whether it reads |
| EventHandlers.ParseEventScript | command/agent/config_test.go:60-63 | a parsed binding has an empty `UserEvent`, a non-empty script and a filter without '='; failure is `EmptyScript` |
| EventHandlers.BareScript | command/agent/config_test.go:61 | a handler without '=' becomes filter "*" with the whole handler as script |
| EventHandlers.FilteredScriptExample | command/agent/config_test.go:62 | "bar=blah.sh" becomes {"bar", "", "blah.sh"} |
| EventHandlers.ParseFormat | command/agent/config_test.go:62 | parsing "filter=script" gives back that filter and script |
| EventHandlers.FormatParse | command/agent/config_test.go:60-63 | every handler that parses is a bare script or exactly "filter=script" of its result |
| EventHandlers.ParseAll | command/agent/config_test.go:51-58 | succeeds exactly when every handler parses, then one binding per handler in input order; otherwise the first failing handler's error |
| EventHandlers.ParseAllPair | command/agent/config_test.go:56-58 | two handlers that parse give two bindings in order |
| EventHandlers.EventScriptsExample | command/agent/config_test.go:44-67 | ["foo.sh", "bar=blah.sh"] gives [{"*", "", "foo.sh"}, {"bar", "", "blah.sh"}] |
| EventHandlers.SeparatorOnlyFails | command/agent/config_test.go:51-54 | the handler "=" names no script and fails the whole list with `EmptyScript` |
| AgentConfig.EventScriptsTable | command/agent/config_test.go:44-67 | `Config.EventScripts` on the test's handlers |
| AgentConfig.Config.EventScripts | command/agent/config_test.go:45-51 | succeeds exactly when every handler parses, giving one binding per handler in order |
| AgentConfig.MergePrecedence | command/agent/config_test.go:96-113 | a string setting of `b` wins exactly when set; a list setting is `a`'s entries followed by `b`'s |
| AgentConfig.MergeConfig | command/agent/config_test.go:96 | a string setting of `b` wins when set and `a`'s is kept otherwise; each list is `a`'s entries then `b`'s |
| AgentConfig.MergeAll | command/agent/config_test.go:168 | no configurations give the empty one; a string set by the last configuration wins; each configuration's list is no longer than the result's (`MergeAllLists` states the entries) |
| AgentConfig.MergeExample | command/agent/config_test.go:83-113 | "bname" overrides "foo", unset role keeps "bar", lists become ["foo", "bar"] |
| AgentConfig.MergeIdentity | command/agent/config_test.go:96 | the empty configuration is neutral on both sides of a merge |
| AgentConfig.MergeAssociative | command/agent/config_test.go:96 | merging is associative |
| AgentConfig.MergeSelf | command/agent/config_test.go:106-113 | `MergeConfig(c, c) == c` exactly when `c` has no list entries (lists are not de-duplicated) |
| AgentConfig.MergeAllSnoc | command/agent/config_test.go:168 | folding one more configuration merges it over the fold so far |
| AgentConfig.MergeAllPair | command/agent/config_test.go:168 | folding two configurations merges the second over the first |
| AgentConfig.MergeAllAppend | command/agent/config_test.go:168 | folding `xs + ys` is merging the fold of `ys` over the fold of `xs` |
| AgentConfig.MergeAllLastSetWins | command/agent/config_test.go:168-175 | after the fold a string setting comes from the last configuration that sets it |
| AgentConfig.MergeAllUnset | command/agent/config_test.go:168-175 | a string setting no configuration sets stays unset |
| AgentConfig.MergeAllLists | command/agent/config_test.go:106-113 | after the fold a list setting is every configuration's entries concatenated in order |
| AgentConfig.ConcatSnoc | command/agent/config_test.go:106-113 | concatenating one more list appends its entries |
| Decoder.StringMember | command/agent/config_test.go:71-77 | a string member is read when present and a string, is "" when absent, and fails otherwise |
| Decoder.ListMember | command/agent/config_test.go:71-77 | a list member is read when present and a list, is [] when absent, and fails otherwise |
| Decoder.DecodeConfig | command/agent/config_test.go:70-80 | a malformed document fails; decoding succeeds exactly on well-typed objects, each setting read from its key |
| Decoder.DecodeNodeNameOnly | command/agent/config_test.go:71-77 | {"node_name": n} decodes to a configuration with `NodeName` n and nothing else set |
| Decoder.DecodeEncode | command/agent/config_test.go:70-80 | decoding a written-out configuration gives it back |
| Decoder.DecodeIgnoresUnknownKeys | command/agent/config_test.go:71 | members under other keys make no difference |
| Loader.ReadFile | command/agent/config_test.go:132-137 | a file reads as its decoded configuration, or fails with `DecodeError` of its path |
| Loader.ReadConfigPaths | command/agent/config_test.go:116-175 | the loop's result is `LoadConfig`: the fold of every source, or the first error |
| Loader.ReadPath | command/agent/config_test.go:116-175 | reading one path merges exactly what `PathSources` gives over the result so far, or returns its error |
| Loader.ReadDirectory | command/agent/config_test.go:142-175 | the loop over a directory's sorted entries merges exactly what `DirSources` reads over the result so far, or returns its first error |
| Loader.DirStep | command/agent/config_test.go:142-175 | each entry either ends the directory's read with its error or extends what the entries before it gave |
| Loader.ReadDirEntry | command/agent/config_test.go:142-166 | a name without ".json" or naming a sub-directory contributes nothing; a missing ".json" entry is `PathNotFound`; a ".json" file contributes its decoded configuration, or fails with `DecodeError` of its path; any contribution is such a decoded file |
| Loader.DirSourcesDecoded | command/agent/config_test.go:142-175 | when every entry is a ".json" file that decodes, the directory's sources are those files' configurations, one per entry, in entry order |
| Loader.DirSources | command/agent/config_test.go:142-175 | a directory contributes at most one source per entry, and fails exactly when some entry fails |
| Loader.PathSources | command/agent/config_test.go:116-140 | a missing path is `PathNotFound`; a file contributes exactly its decoded configuration, or `DecodeError` of its path |
| Loader.AndThen | command/agent/config_test.go:116-121 | two reads succeed together only when both do, giving the first's sources then the second's; the first error met wins |
| Loader.Sources | command/agent/config_test.go:116-121 | no paths give no sources; a successful read means every path exists |
| Loader.LoadConfig | command/agent/config_test.go:116-175 | no paths load the empty configuration; a successful load means every path exists; the load fails exactly when reading the sources does, with that error; otherwise it is the left-to-right merge of every source |
| Loader.SubdirListingIrrelevant | command/agent/config_test.go:142-175 | what a sub-directory lists, even one named "x.json", does not change its parent directory's load |
| Loader.DirSourcesIgnoreSubdirListing | command/agent/config_test.go:142-175 | what a sub-directory lists does not change how its parent's entries read |
| Loader.SourcesPrefixError | command/agent/config_test.go:116-121 | an error in the first paths is the error of the whole load |
| Loader.DirPrefixError | command/agent/config_test.go:142-175 | an error in a directory's first entries is the directory's error |
| Loader.SourcesSnoc | command/agent/config_test.go:168 | reading one more path appends its sources |
| Loader.SourcesSingle | command/agent/config_test.go:132 | a single path contributes what it names |
| Loader.SourcesAppend | command/agent/config_test.go:168 | the sources of `ps + qs` are those of `ps` then those of `qs`; the first error wins |
| Loader.LoadAppend | command/agent/config_test.go:168 | loading `ps + qs` merges the load of `qs` over the load of `ps`; the first error wins |
| Loader.MissingPathFails | command/agent/config_test.go:116-121 | any path that does not exist fails the load, with `PathNotFound` of it when the paths before it read |
| Loader.DecodeFailureFails | command/agent/config_test.go:116-140 | a file that does not decode fails the whole load, with `DecodeError` of its path when the earlier paths read |
| Loader.DirEntryDecodeFailureFails | command/agent/config_test.go:142-175 | a ".json" entry of a directory that does not decode fails the directory's load, with `DecodeError` of that entry's path when the entries before it read |
| Loader.BadPathExample | command/agent/config_test.go:116-121 | loading "/i/shouldnt/exist/ever/rainbows" fails |
| Loader.SingleFile | command/agent/config_test.go:123-140 | loading one file gives its decoded configuration, or `DecodeError` of its path |
| Loader.SingleFileExample | command/agent/config_test.go:128-139 | a file holding node_name "bar" loads with `NodeName` "bar" |
| Loader.DirSourcesSnoc | command/agent/config_test.go:142-175 | reading one more directory entry appends what it contributes |
| Loader.DirSkipsOtherNames | command/agent/config_test.go:161-166 | a directory reads as if only its ".json" entries were listed |
| Loader.ConfigNamesCount | command/agent/config_test.go:161-166 | the names read are exactly the ".json" entries, each as often as listed |
| Loader.ConfigNamesSorted | command/agent/config_test.go:142-175 | keeping only the ".json" names of a sorted listing leaves it sorted |
| Loader.DirReadOrder | command/agent/config_test.go:142-175 | a directory's sources come from its ".json" entries in ascending name order |
| Loader.ListingOrderIrrelevant | command/agent/config_test.go:142-175 | the order a directory lists its entries in does not change what is loaded |
| Loader.DirSourcesOwnEntries | command/agent/config_test.go:142-175 | replacing a directory's own entry does not change how its entries read |
| Loader.ExampleListingSorts | command/agent/config_test.go:149-166 | "c", "b.json", "a.json" sort to "a.json", "b.json", "c" |
| Loader.ExampleNames | command/agent/config_test.go:161-166 | "a.json" and "b.json" are read, "c" is not |
| Loader.ReadNodeNameEntry | command/agent/config_test.go:149-157 | a ".json" entry holding node_name n contributes the configuration with `NodeName` n |
| Loader.TwoOfThreeEntries | command/agent/config_test.go:142-175 | entries a, b, c where c contributes nothing give a's then b's configuration |
| Loader.ExampleEntries | command/agent/config_test.go:149-166 | in the test directory a.json gives "bar", b.json gives "baz", c gives nothing |
| Loader.DirectoryExample | command/agent/config_test.go:142-175 | the test directory loads with `NodeName` "baz": b.json, read after a.json, wins, and c is not read |
| Loader.LoadDirOfTwo | command/agent/config_test.go:168-175 | a directory whose entries give two configurations loads as the second merged over the first |
| Loader.ExampleDirSources | command/agent/config_test.go:142-166 | the test directory's entries, in name order, give "bar" then "baz" |
| Text.LeqTotal | command/agent/config_test.go:142-175 | any two names are ordered one way or the other |
| Text.LeqTransitive | command/agent/config_test.go:142-175 | the name order is transitive |
| Text.LeqAntisymmetric | command/agent/config_test.go:142-175 | names ordered both ways are equal |
| Text.InsertPermutes | command/agent/config_test.go:142-175 | inserting a name adds exactly that name |
| Text.InsertSorted | command/agent/config_test.go:142-175 | inserting into a sorted listing keeps it sorted |
| Text.SortedTail | command/agent/config_test.go:142-175 | the tail of a sorted listing is sorted |
| Text.SortedCons | command/agent/config_test.go:142-175 | a name before every name of a sorted listing extends it sorted |
| Text.SortSpec | command/agent/config_test.go:142-175 | sorting gives an ascending permutation of the names |
| Text.Sort | command/agent/config_test.go:142-175 | the sorted names are a permutation of the listed ones |
| Text.SortedUnique | command/agent/config_test.go:142-175 | two ascending arrangements of the same names are equal |
| Text.SortIgnoresListingOrder | command/agent/config_test.go:142-175 | the sorted order depends only on which names there are |

## Left out

- `DecodeConfig` does not model the JSON text syntax or its decoding library. A document is given
  already parsed, as malformed or as an object of members. Syntax-error positions are not kept.
- `Address.SplitHostPort` returns the IP as written and makes no range check on the port. If the
  implementation resolves or normalises the host, which the tests cannot show, the model does not.
- Real filesystem I/O (opening, stat, listing, reading, temporary files, removal) is not modelled.
  An abstract map from path to entry stands for it. Read and permission errors beyond a missing
  path are not modelled, and neither are symbolic links or path cleaning.
- Error messages are not modelled. An error carries only its kind and the path or text it concerns.
- `command/members.go` is not part of this model. It parses flags, opens an RPC connection to a
  running agent and prints the member list, and it holds no configuration logic.
- Configuration settings other than `NodeName`, `Role`, `BindAddr`, `EventHandlers` and `StartJoin`
  are not modelled, because the tests exercise only these.
- File names that are not valid UTF-8 are not modelled: names are sequences of Unicode code points,
  and `Text.Leq` orders them by code point, which agrees with byte order only on UTF-8 names.
