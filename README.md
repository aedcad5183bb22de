# cfitall in Dafny

A model of the core of cfitall, a Python library that gathers configuration
from several sources and merges them into one nested tree. Callers read
values with dotted keys such as `db.host`.

The model covers these parts:

- **Nested-dict utilities** (`cfitall/utils.py`): `add_keys`,
  `expand_flattened_path`, `find_keys`, `extract_values`, `flatten_dict`,
  `merge_dicts` and `expand_flattened_dict`.
  - A nested dict is a `Tree.Dict`: an ordered list of `(key, Node)` pairs,
    where a node is a nested dict (`Branch`) or a value (`Leaf`). Python
    dicts keep insertion order, and `find_keys` depends on it.
  - The loops of `flatten_dict`, `merge_dicts` and `expand_flattened_dict`
    are `method`s proved equal to functions that specify them. The
    recursive `add_keys` is a recursive function. So are `find_keys` and
    `extract_values`, although each also loops over a dict's items (see
    Left out). The lemmas in `merge.dfy`, `flatten.dfy` and `expand.dfy` state what
    those functions guarantee.
- **Provider manager** (`cfitall/manager.py`): `ProviderManager` is a class
  with an `ordering` list and a map from names to providers. It has
  `register`, `deregister`, `get` and `update_all`.
- **Providers** (`cfitall/providers/`):
  - `EnvironmentProvider` reads variables from an environment given as a
    list of `(name, value)` pairs.
  - `FilesystemProvider` is a class whose `update()` searches directory
    listings and loads a parsed document.
- **`ConfigurationRegistry`** (`cfitall/registry.py`):
  - the default providers;
  - the merge of defaults, providers and set values, in precedence order;
  - the getters `get`, `get_bool`, `get_int` and `get_list`;
  - `config_keys` and `env_vars`;
  - `set`, `set_default` and `update`.
- **Legacy `ConfigManager`** (`cfitall/config.py`):
  - its prefix rule;
  - its own environment reader;
  - the merge of four sources;
  - the typed `get`;
  - `config_keys` and `env_vars`;
  - `set`, `set_default` and `add_config_path`.

Python exceptions are values: `Wrappers.Result` holds a value or a
`PyError`, and `Wrappers.Outcome` adds a case for conversions the model
leaves open (floats and Decimals). Python's `==` between values (`True == 1`) is
`Values.PyEq`. String order for `sorted` is `Sorting.LessEq`, which
compares code points.

Where the code and its documented behaviour differ, the model follows the
code, with these exceptions:

- **`flatten_dict`.** `flatten_dict` as written (cfitall/utils.py:88-108)
  does not do what its docstring and its tests say. The model has both versions: the function
  as written, and the documented one (see Findings). The registry and the
  legacy manager use the documented one.
- **The default environment provider.** `registry.py:52` builds
  `EnvironmentProvider(name)`, which raises. The model uses the separators
  `"__"` and `","`, which the tests of the environment provider assume (see
  Findings).
- **The environment provider's name and `update`.** `EnvironmentProvider`
  (cfitall/providers/environment.py:8-75) defines neither. It inherits
  `provider_name = "not_implemented"` (providers/base.py:3) and an
  `update()` that raises NotImplementedError (providers/base.py:14-19).
  `update_all` catches only AttributeError (manager.py:76-82), so
  `update()` of a registry holding an environment provider raises. And
  `env_vars` looks the provider up as `"environment"` (registry.py:90),
  finds nothing and returns `[]`. The model has the update as written
  (`Providers.UpdateResultAsWritten`, `Providers.NameAsWritten`), and
  otherwise gives the provider the name `"environment"` and an `update()`
  that returns True, which `test_update` and `env_vars` expect (see
  Findings).

## Model

| member | source | states |
|---|---|---|
| Strings.LowerIsLowerCase | cfitall/utils.py:123 | `str.lower()` leaves no upper-case ASCII letter; a string is lower-case exactly when lowering it changes nothing |
| Strings.LowerUpper | cfitall/registry.py:91-93 | lowering an upper-cased string is lowering the original |
| Strings.TrimLeft | cfitall/providers/environment.py:66 | `lstrip()` removes exactly a leading run of whitespace and stops at a non-space |
| Strings.TrimRight | cfitall/providers/environment.py:66 | `rstrip()` removes exactly a trailing run of whitespace and stops at a non-space |
| Strings.StripSlice | cfitall/registry.py:182 | `strip()` is a slice of the string; everything cut off is whitespace, and the result neither starts nor ends with whitespace |
| Strings.StripIdempotent | cfitall/providers/environment.py:66 | stripping twice is stripping once |
| Strings.StripKeeps | cfitall/providers/environment.py:66 | a string with non-space ends is unchanged by `strip()` |
| Strings.Split | cfitall/utils.py:47 | `str.split(sep)` with a literal separator always yields at least one piece |
| Strings.JoinSplit | cfitall/utils.py:47 | joining the pieces of `s.split(sep)` with `sep` gives back `s` |
| Strings.SplitJoin | cfitall/registry.py:181 | splitting `c.join(parts)` on a one-character `c` that occurs in no part gives back `parts` |
| Strings.ReplaceIsSplitJoin | cfitall/registry.py:93 | `key.replace(c, r)` equals joining the pieces of `key.split(c)` with `r` |
| Strings.LowerReplace | cfitall/registry.py:91-93 | lower-casing commutes with replacing a non-letter character |
| Strings.HasCommaBeforeNewlineIff | cfitall/utils.py:143-145 | `re.match(r'.*,(.*,)*.*', s)` succeeds exactly when a comma occurs before the first newline (`.` does not match a newline) |
| Strings.ShowNat | cfitall/config.py:119 | `str(n)` of a natural number is a non-empty string of digits |
| Strings.DigitsValueShowNat | cfitall/config.py:119 | the digits of `str(n)` denote `n` |
| Strings.ParseShowInt | cfitall/registry.py:168 | `int(str(n)) == n` for every integer |
| Strings.ParseUnsigned | cfitall/registry.py:168 | `int()` accepts digits with single underscores between them and returns their value |
| Strings.ParseSigned | cfitall/registry.py:168 | `int()` accepts a leading `+` or `-` before such digits |
| Values.PyEqReflexive | cfitall/utils.py:65 | Python `==` on configuration values is reflexive |
| Values.PyEqSymmetric | cfitall/utils.py:65 | Python `==` on configuration values is symmetric |
| Values.PyEqNotIdentity | cfitall/utils.py:65 | an example: `True == 1` although they are different values |
| Values.JoinValues | cfitall/config.py:117-118 | `','.join(items)` succeeds exactly when every item is a string, raises TypeError otherwise, and is the join of the items' texts |
| Values.JoinValuesStrs | cfitall/config.py:118 | joining a list of strings joins their texts |
| Values.IntOfShowInt | cfitall/registry.py:168 | `int()` of the decimal text of `n` is `n` |
| Values.IntOfDigits | cfitall/registry.py:168 | `int()` of ASCII digits with single underscores between them, bare or after `+` or `-`, is the value those digits spell, with the sign applied |
| Values.IntOfStrOf | cfitall/config.py:119-121 | `int(str(n)) == n` through the value conversions |
| Tree.Keys | cfitall/utils.py:122 | the keys of a dict in insertion order |
| Tree.Get | cfitall/utils.py:29 | `d.get(k)` is None exactly when `k` is not a key, and otherwise is the value paired with `k` |
| Tree.GetSet | cfitall/utils.py:128 | after `d[k] = v`, looking up `k` gives `v` and every other key gives what it gave before |
| Tree.SetKeys | cfitall/utils.py:128 | item assignment keeps the key order and appends a new key at the end |
| Tree.SetSame | cfitall/utils.py:128 | assigning the value already stored changes nothing |
| Tree.SetDistinct | cfitall/utils.py:128 | item assignment keeps the keys distinct |
| Tree.LeafAtChain | cfitall/utils.py:27-32 | the nested dict built along a path holds its value at exactly that path and has no other leaf |
| Tree.Under | cfitall/utils.py:62-64 | prefixing `key` to each leaf path found below it |
| Utils.AddKeysBinds | cfitall/utils.py:27-30 | `add_keys(d, keys, v)` puts a fresh chain ending in `v` at `keys[0]`, replacing what was there, and leaves every other top-level key and the key order alone |
| Utils.AddKeysSingle | cfitall/utils.py:31-33 | with one key, `add_keys` is `d[key] = value`, and the value defaults to None |
| Utils.ExpandFlattenedPathChain | cfitall/utils.py:36-48 | `expand_flattened_path(p, sep, v)` is the one-entry dict holding the chain over `p.split(sep)`; empty pieces are literal keys |
| Utils.FlattenDict | cfitall/utils.py:88-108 | the loop of `flatten_dict` as written files each extracted value under the first path holding an equal leaf, or raises |
| Utils.FlattenStepsErr | cfitall/utils.py:99-103 | once an iteration of `flatten_dict` raises, the call raises that exception |
| Utils.MergeDicts | cfitall/utils.py:111-129 | the loop of `merge_dicts` returns the updated destination, or the exception the first failing entry raises |
| Utils.MergePrefixErr | cfitall/utils.py:122-129 | once an entry of `merge_dicts` raises, the call raises that exception |
| Utils.ExpandFlattenedDict | cfitall/utils.py:132-148 | the loop of `expand_flattened_dict` merges the result so far into each entry's expanded path, with comma text split first, or raises |
| Utils.ExpandEntry | cfitall/utils.py:143-147 | one iteration of `expand_flattened_dict` |
| Utils.ExpandOne | cfitall/utils.py:141-148 | a one-entry flat dict expands to the tree of its one path, holding the comma-split value |
| ExpandProperties.ExpandBuilds | cfitall/utils.py:141-148 | when every key splits into a lower-case path and no path begins another, `expand_flattened_dict` raises nothing. Its result has distinct lower-case keys and no empty nested dict, and holds at each path exactly the comma-split value of the key that splits into it (`Good`) |
| ExpandProperties.ExpandStepBuilds | cfitall/utils.py:142-147 | one iteration over such keys raises nothing and keeps that invariant, now counting the new entry |
| ExpandProperties.StepLeafAt | cfitall/utils.py:146-147 | one iteration puts the entry's comma-split value at its key's path and leaves every other path as it was |
| ExpandProperties.ExpandFlattenedLeafAt | cfitall/utils.py:132-148 | over such keys, each entry's comma-split value is found at its key's path, and every leaf of the result lies at some key's path |
| ExpandProperties.FlattenExpand | cfitall/utils.py:132-148 | round trip with the documented `flatten_dict` (docstring at line 90): for a tree whose keys are distinct, lower case and free of the separator, and whose leaves hold no comma text, expanding the flattened dict raises nothing and gives back exactly the tree's leaves at their paths |
| ExpandProperties.FlattenedPaths | cfitall/utils.py:88-90 | the documented flatten of such a tree has distinct keys, each at a leaf path of the tree; those paths are lower case and none begins another |
| ExpandProperties.EarlierLeafWins | cfitall/utils.py:146-147 | `{"a": 1, "a.b": 2}` expands to `{"a": 1}`: the earlier leaf, merged over the later nested dict, replaces it |
| ExpandProperties.LaterLeafRaises | cfitall/utils.py:146-147 | `{"a.b": 2, "a": 1}` raises TypeError: the earlier nested dict is merged over the later leaf |
| ExpandProperties.MergeNoEmpty | cfitall/utils.py:122-129 | `merge_dicts` of a source without empty nested dicts into a destination without them creates none |
| ExpandProperties.CompatibleChain | cfitall/utils.py:122-129 | merging a lower-case keyed tree into a one-path tree raises nothing when no leaf of the tree lies strictly below that path |
| ExpandProperties.DecidesOwn | cfitall/utils.py:122-129 | for a source with distinct lower-case keys, a path the source decides gets the source's own leaf. The source decides nothing where it has no leaf, nor where no beginning of the path is one of its leaves |
| Sorting.LessEqTotal | cfitall/registry.py:76 | any two strings are ordered one way or the other |
| Sorting.LessEqAntisymmetric | cfitall/registry.py:76 | strings ordered both ways are equal |
| Sorting.LessEqTransitive | cfitall/registry.py:76 | string order is transitive |
| Sorting.Insert | cfitall/registry.py:76 | inserting into a sorted list keeps it sorted and adds exactly that string |
| Sorting.Sort | cfitall/registry.py:76 | `sorted(keys)` is sorted and a permutation of `keys` |
| Sorting.FirstIsLeast | cfitall/providers/filesystem.py:69 | in a sorted list, an element no greater than the one at `k` and found from `k` on is the one at `k` |
| MergeProperties.EntryOtherKeys | cfitall/utils.py:123-128 | one entry of `merge_dicts` changes only its own key of the destination |
| MergeProperties.MergeOtherKeys | cfitall/utils.py:122-129 | a destination key that no source key lower-cases to keeps its entry |
| MergeProperties.MergeLeafAt | cfitall/utils.py:122-129 | for a source whose keys stay distinct after lower-casing, at every level: after a merge that does not raise, the leaf at a path is the source's answer where the source decides that path, and the destination's otherwise |
| MergeProperties.MergeSourceLeaf | cfitall/utils.py:122-129 | for a source whose keys stay distinct after lower-casing, at every level: after a merge that does not raise, every source leaf is found in the merged dict at its lower-cased path |
| MergeProperties.DecidesLeaf | cfitall/utils.py:123-128 | a source leaf decides its lower-cased path |
| MergeProperties.LowerPath | cfitall/utils.py:123 | every key of a path lower-cased, position by position |
| MergeProperties.FindLowerGet | cfitall/utils.py:123 | when no two source keys lower-case alike, the entry lower-casing to `Lower(k)` is the one under `k` |
| MergeProperties.EntryOk | cfitall/utils.py:124-128 | one entry raises exactly when a nested dict with entries meets a destination leaf, at that level or below |
| MergeProperties.MergeOk | cfitall/utils.py:122-129 | with distinct lower-cased source keys, `merge_dicts` raises exactly when some nested source dict with entries meets a destination leaf at the same path |
| MergeProperties.MergeIdempotent | cfitall/utils.py:122-129 | for a source whose keys stay distinct after lower-casing, at every level: when a merge does not raise, merging the same source into its result again changes nothing |
| MergeProperties.MergeTwiceRaises | cfitall/utils.py:122-129 | idempotence needs distinct lower-cased keys: source `{"A": {"x": 1}, "a": 5}` merges once and raises TypeError the second time |
| MergeProperties.MergeShape | cfitall/utils.py:122-129 | the merged dict keeps distinct keys at every level, and is lower-case keyed when the destination was |
| FlattenProperties.FlattenGet | cfitall/utils.py:88-90 | the documented flatten: the entry under a dotted key is the leaf at the path that key splits into, when no key holds the separator |
| FlattenProperties.LeafAtListed | cfitall/utils.py:78-84 | every leaf of the tree is among the leaves listed in order |
| FlattenProperties.ListedLeafAt | cfitall/utils.py:78-84 | every listed leaf is found at its path |
| FlattenProperties.FindKeysFirst | cfitall/utils.py:51-66 | `find_keys(d, v)` is the path of the first leaf, in insertion order, that `==` v, or None |
| FlattenProperties.FirstMatchIsFirst | cfitall/utils.py:60-66 | the first match is Python-equal to the value and no earlier leaf is |
| FlattenProperties.ExtractFromPlain | cfitall/utils.py:69-85 | on a tree whose leaves are pairwise different non-lists, `extract_values` returns the leaves in order |
| FlattenProperties.FlattenAgrees | cfitall/utils.py:88-108 | for trees whose leaves are pairwise different under `==`, not lists and free of comma text, `flatten_dict` as written equals the documented flatten |
| FlattenProperties.FlattenCollapses | cfitall/utils.py:97-108 | as written, `{"a": 1, "b": 1}` flattens to `{"a": 1}`; the documented flatten keeps both |
| Filesystem.FirstCandidate | cfitall/providers/filesystem.py:69-80 | the file of a listing named `prefix.lower()` plus `.json`, `.yaml` or `.yml` that comes before every other such file, or None when there is none |
| Filesystem.FilesystemProvider.constructor | cfitall/providers/filesystem.py:23-40 | the fields are set, the file is located, and the data stays empty until `update` |
| Filesystem.FilesystemProvider.SetConfigFile | cfitall/providers/filesystem.py:61-81 | returns whether a file was found; on a find it records the file and its type, otherwise the fields are unchanged |
| Filesystem.FilesystemProvider.ReadConfigFile | cfitall/providers/filesystem.py:42-59 | loads the parsed mapping with its top-level keys lower-cased, `{}` when parsing fails, raises when the document is not a mapping or cannot be opened, and keeps the data when no file is set |
| Filesystem.FilesystemProvider.Update | cfitall/providers/filesystem.py:83-90 | returns True after locating and loading a file, and False, changing nothing, when no file is found |
| Filesystem.LowerTopKeysLoop | cfitall/providers/filesystem.py:57 | the comprehension lower-cases the top-level keys; the last key to lower-case alike wins |
| Filesystem.JsonFirst | cfitall/providers/filesystem.py:69-73 | in a directory holding `prefix.json`, that file is chosen over `.yaml` and `.yml` |
| Filesystem.SortNoCandidate | cfitall/providers/filesystem.py:69 | sorting a listing does not change whether it holds a candidate |
| Filesystem.LocateNone | cfitall/providers/filesystem.py:67-81 | no file is found exactly when no existing directory of the path lists a candidate |
| Filesystem.LocateFirstDirectory | cfitall/providers/filesystem.py:67-80 | the file found is in the first existing directory that lists a candidate, and is that directory's first candidate in sorted order |
| Filesystem.LowerTopKeysGet | cfitall/providers/filesystem.py:57 | looking up `k` in the loaded data finds the last top-level entry whose key lower-cases to `k` |
| Filesystem.LoadedTopKeys | cfitall/providers/filesystem.py:57 | every top-level key of the loaded data is lower-case |
| Filesystem.UpdateTwice | cfitall/providers/filesystem.py:83-90 | a second `update()` on the same filesystem changes nothing more |
| Filesystem.UpdateFound | cfitall/providers/filesystem.py:83-90 | `update()` returns False exactly when no file is located, and True only when one is |
| Environment.SplitValueLoop | cfitall/providers/environment.py:52-69 | the loop of `_split_value` keeps each stripped, non-empty piece of a bracketed value |
| Environment.KeepNonBlankClean | cfitall/providers/environment.py:65-67 | every kept piece is non-empty and already stripped |
| Environment.KeepNonBlankKeeps | cfitall/providers/environment.py:65-67 | pieces that are non-empty and stripped are all kept |
| Environment.KeepNonBlankBlank | cfitall/providers/environment.py:65-67 | pieces that strip to nothing are all dropped |
| Environment.SplitValueJoin | cfitall/providers/environment.py:62-68 | `"[" + sep.join(pieces) + "]"` splits into the stripped non-blank pieces |
| Environment.SplitValueRoundTrip | cfitall/providers/environment.py:62-68 | a bracketed join of clean items splits back into those items |
| Environment.SplitValueUnbracketed | cfitall/providers/environment.py:62-69 | an unbracketed value, or any value with splitting off, is returned unchanged |
| Environment.ParseBool | cfitall/providers/environment.py:33-37 | for a value that is not split as a bracketed list: with casting on, "true" and "false" in any case become booleans; every other text, and every text with casting off, stays a string |
| Environment.DictLeafAt | cfitall/providers/environment.py:71-75 | over a whole environment whose read keys have paths none of which begins another, `dict` raises nothing, holds at each read key's path the comma-split value of the last variable naming that key, and has no leaf elsewhere |
| Environment.ReadEnvironmentLoop | cfitall/providers/environment.py:19-50 | the loop of `_read_environment` stores each prefixed variable under its lower-cased remainder |
| Environment.ReadEnvironmentGet | cfitall/providers/environment.py:28-49 | the value under key `k` is the parsed value of the last variable whose name maps to `k`, and absent if none does |
| Environment.ReadEnvironmentLower | cfitall/providers/environment.py:31 | every key read is lower-case |
| Environment.ReadOne | cfitall/providers/environment.py:29-49 | one prefixed variable gives one entry, its parsed value under its key |
| Environment.DictOfOne | cfitall/providers/environment.py:71-75 | an illustration for one variable: `dict` of that variable holds its value at the path its key splits into on the level separator, and nothing else |
| Providers.Update | cfitall/providers/base.py:14-19 | a provider's `update()` result, and the new state of a file provider |
| Manager.ProviderManager.constructor | cfitall/manager.py:18-30 | the given providers are registered in order: each name at its first occurrence, holding the first provider with that name |
| Manager.ProviderManager.Get | cfitall/manager.py:35-45 | a provider exactly when the name is in `ordering`, and it is the one registered under that name |
| Manager.ProviderManager.Register | cfitall/manager.py:47-59 | a new name is appended to `ordering` with its provider; a taken name leaves `ordering` and the providers unchanged; the invariant is kept |
| Manager.ProviderManager.Deregister | cfitall/manager.py:61-69 | the name leaves the providers and `ordering`, the others keep their relative order, an unknown name changes nothing, and the invariant is kept |
| Manager.ProviderManager.UpdateAll | cfitall/manager.py:71-82 | providers update in `ordering` order; False or AttributeError is logged and the loop goes on; any other exception stops it and propagates; file providers past that point are untouched |
| Manager.UpdateAllRaisesAsWritten | cfitall/manager.py:76-82 | with the inherited `update()` of `EnvironmentProvider` as written, `update_all` stops at or before the first environment provider and raises; with only environment providers before it, it stops at the first provider |
| Manager.EnvironmentUpdateSucceeds | cfitall/manager.py:76-82 | with the intended `update()` returning True, `update_all` over environment providers runs to the end and logs none as failed |
| Manager.UpdateEach | cfitall/manager.py:76-82 | the loop of `update_all` over a list of separate providers |
| Manager.ProviderManager.InOrder | cfitall/manager.py:76-78 | the registered providers in `ordering` order, each under its own name |
| Manager.ProviderManager.InOrderSeparate | cfitall/manager.py:76-78 | different names of `ordering` hold different file-provider objects |
| Manager.WithoutMembers | cfitall/manager.py:69 | the comprehension keeps exactly the names other than the removed one |
| Manager.WithoutNoDuplicates | cfitall/manager.py:69 | the comprehension keeps `ordering` free of duplicates |
| Manager.RegisteredStep | cfitall/manager.py:29-30 | registering one more provider of the list keeps `ordering` and the providers equal to those of the registered prefix |
| Registry.MergeAllLeafAt | cfitall/registry.py:222-231 | when every source's keys stay distinct after lower-casing and the merge does not raise: the leaf at a path of the merged config is the answer of the last source that decides it, set values over providers in `ordering` order over defaults |
| Registry.MergeAllShape | cfitall/registry.py:222-231 | the merged config has distinct, lower-case keys at every level |
| Registry.MergeAllFree | cfitall/registry.py:222-231 | when no source key holds `.`, no merged key does |
| Registry.MergeSources | cfitall/registry.py:226-231 | the loop of `_merge_configs` merges each source into the result so far, or raises |
| Registry.ResolveLookup | cfitall/registry.py:122-130 | when every source's keys stay distinct after lower-casing, no key of any source holds `.`, and the merge does not raise: `get(key)` is the resolved leaf at `key.split(".")` |
| Registry.GetKeyResolves | cfitall/registry.py:122-130 | under the same two conditions on the sources: `get(key)` is the resolved leaf when the merge does not raise, and None when merging raises TypeError |
| Registry.UpperKeyMissing | cfitall/registry.py:122-130 | the query is not case-folded: a key with an upper-case letter is never found |
| Registry.GettersAgree | cfitall/registry.py:122-185 | for a found value, `get` returns it; `get_bool` and `get_int` map 1 and 0 to True and False and back; `get_list` copies a list and, with `csv=False`, gives the characters of a string |
| Registry.TypeErrorCaughtOnlyByGet | cfitall/registry.py:122-185 | only `get` catches the TypeError of a failed merge; the other getters raise it |
| Registry.ListFromCsvJoin | cfitall/registry.py:180-182 | `get_list` splits the comma join of stripped, comma-free items back into those items |
| Registry.GetIntOfText | cfitall/registry.py:162-170 | `get_int` of the decimal text of `n` is `n` |
| Registry.ConfigKeysFound | cfitall/registry.py:69-76 | `config_keys` is sorted and lists exactly the keys `get` finds |
| Registry.EnvVarNameReadBack | cfitall/registry.py:91-95 | the environment provider reads such a variable back under the key with `.` replaced by the level separator |
| Registry.EnvVarsNames | cfitall/registry.py:85-97 | with an environment provider, `env_vars` is the sorted list of the variable names of all flattened keys |
| Registry.AssignedChain | cfitall/registry.py:202-203 | `expand_flattened_dict({key: value})` is the chain over `key.split(".")` holding the comma-split value |
| Registry.AssignedLeafAt | cfitall/registry.py:197-204 | after `set(key, value)` the value is at the key's lower-cased path, and paths under other top-level keys are unchanged |
| Registry.SetWins | cfitall/registry.py:197-204 | a value set with `set` is what the merged config holds at that key, whatever the other sources hold |
| Registry.DefaultFallsThrough | cfitall/registry.py:206-214 | a default is what the merged config holds when no later source decides that path |
| Registry.DefaultEnvironmentRaises | cfitall/registry.py:52 | `EnvironmentProvider(name)` as written raises TypeError |
| Registry.DefaultEnvironment | cfitall/registry.py:52 | the default environment provider reads variables starting with `NAME__` |
| Registry.DefaultEnvVarsReadBack | cfitall/registry.py:85-97 | every variable name `env_vars` lists is read back by the default environment provider |
| Registry.DefaultProviders | cfitall/registry.py:46-52 | a filesystem provider over the default path and then the environment provider, registered in that order |
| Registry.ConfigurationRegistry.constructor | cfitall/registry.py:24-52 | no set values and the given defaults; the given providers registered in order, each name holding the first provider with that name; or the two default providers, the file provider searching the default path for `name` |
| Registry.ConfigurationRegistry.MergeConfigs | cfitall/registry.py:222-231 | `_merge_configs` merges those sources in that order into a fresh dict, or raises |
| Registry.ConfigurationRegistry.Set | cfitall/registry.py:197-204 | `set` merges the expanded key into the set values and leaves the defaults alone; the set values stay lower-case keyed |
| Registry.ConfigurationRegistry.SetDefault | cfitall/registry.py:206-214 | `set_default` merges the expanded key into the defaults and leaves the set values alone |
| Registry.ConfigurationRegistry.Update | cfitall/registry.py:216-220 | `update` is `update_all`: it raises what escapes it, and each file provider up to and including the one that raised is updated while those after it are untouched |
| Config.ReadEnvironment | cfitall/config.py:200-226 | `_read_environment` stores each prefixed variable under its lower-cased remainder, splits comma text, casts booleans, and expands the result on `env_path_sep` |
| Config.ReadPrefixGet | cfitall/config.py:211-225 | the value under a key is that of the last variable naming it |
| Config.JoinHasComma | cfitall/config.py:215 | a join of two or more items on `,` matches the comma pattern |
| Config.JoinReadBack | cfitall/config.py:114-119 | with splitting on and casting off, the comma join of two or more items reads back as those items, and `get(key, str)` of that list is the join |
| Config.ConfigKeysFound | cfitall/config.py:35-45 | `config_keys` raises what merging raises; otherwise it is sorted and lists exactly the keys for which `get` finds a value |
| Config.EnvVarsNames | cfitall/config.py:57-68 | `env_vars` is the sorted list of the variable names of all flattened keys |
| Config.VarNameReadBack | cfitall/config.py:65-67 | `_read_environment` reads such a name back under the key with `.` replaced by `env_path_sep` |
| Config.ConvertListStr | cfitall/config.py:114-119 | `rtype=list` copies a list or gives the characters of a string; `rtype=str` joins a list of strings with `,` and raises TypeError on any other item |
| Config.ConvertInt | cfitall/config.py:120-121 | `rtype=int` turns decimal text and booleans into their integers |
| Config.GetMissing | cfitall/config.py:109-112 | `get` of a missing key is None whatever the `rtype` |
| Config.ConfigManager.constructor | cfitall/config.py:11-33 | a non-empty `env_prefix` is upper-cased, otherwise the upper-cased name is the prefix; the other settings are kept as given |
| Config.ConfigManager.MergeConfigs | cfitall/config.py:228-239 | `_merge_configs` merges those four sources in that order, or raises |
| Config.ConfigManager.AddConfigPath | cfitall/config.py:90-98 | appends the path and changes nothing else |
| Config.ConfigManager.Set | cfitall/config.py:128-139 | merges the expanded key into the set values, keeps them lower-case keyed, and leaves the defaults, the file values, the path and the config file alone |
| Config.ConfigManager.SetDefault | cfitall/config.py:141-153 | merges the expanded key into the defaults and leaves the set values, the file values, the path and the config file alone |

## Left out

- Process environment and filesystem. `os.environ` is a parameter: a list of `(name, value)` pairs in iteration order. The filesystem is a `Filesystem.Disk`: directory listings and parsed documents. `$HOME` is a string parameter, with `""` for unset.
- Parsing and dumping. JSON and YAML parsing are not modelled: a document is already parsed, or it is malformed, not a mapping, or unreadable. Also left out are the `json` and `yaml` properties and `ConfigManager.read_config` and its file readers, since they wrap foreign libraries and an unordered `os.listdir`.
- Logging. The model drops it. `update_all` returns the names it would log.
- Floats and Decimal. `get_float`, `get_decimal`, `get_string`, `rtype=float` and `rtype=Decimal` are not modelled. Float and Decimal leaves are an opaque value carrying its `str()` text. `int()` and truth of them are left open (`Outcome.Unmodelled`), and so is `str()` of a list.
- Python `==` on floats and Decimals. `Values.PyEq` makes an opaque number equal only to an opaque number with the same text, and to no int or bool. In Python `1.0 == 1 == True` and `Decimal("1.0") == Decimal("1.00")`. So for trees holding floats or Decimals, which leaves `flatten_dict` as written collapses (Utils.FlattenDict, FlattenProperties.FindKeysFirst) can differ from Python's.
- `find_keys` and `extract_values`. Their loops over the dict's items are modelled as recursion over the entry list (`Utils.FindKeys`, `Utils.ExtractValues`), in the same order and with the same early return; there is no loop method for them.
- Separators. They are literal strings. `re.split` with a pattern such as `\s+` as the value separator is not modelled.
- Case. Lower- and upper-casing are ASCII only.
- Digits. `int()` accepts only ASCII digits in the model; Python accepts every Unicode decimal digit (category Nd), so `int("١٢")` is 12 in Python and a ValueError here.
- Keys. Only string keys exist, so the `isinstance(key, str)` test in `merge_dicts` always holds.
- Mutation in place. `merge_dicts` and `add_keys` mutate and return their destination. The model returns a new dict, so aliasing between a caller's dict and the registry's values is not captured. For example, `set` merging into the same dict object that was passed as `defaults` is not modelled.
- Shared defaults. The mutable default argument `defaults={}` of `ConfigManager`, shared between instances, is not modelled.
- The accumulating default of `extract_values`. The `values=[]` default at `cfitall/utils.py:69` persists between calls, so a second `flatten_dict` in one process also sees values of the first. The model starts each call from an empty list.
- Attribute clashes. `ProviderManager` stores providers as attributes, so a provider named `ordering`, `get` or `register` would collide with the manager's own members. The model keeps providers in a separate map.
- Other registry properties. `all`, `dict`, `json` and `yaml` are not modelled. `dict` is `MergeConfigs`.
- Utils.AddKeysBinds: requires a non-empty key list. Python raises IndexError on `[]`, but `str.split` never yields an empty list.
- Strings.SplitJoin: stated for one-character separators only, which is all the callers split on.
- MergeProperties.MergeOk: requires distinct lower-cased keys in the source. Otherwise the outcome depends on which duplicate comes last (see MergeTwiceRaises).
- MergeProperties.MergeLeafAt: requires distinct lower-cased keys in the source. With `{"A": {"x": 1}, "a": {"y": 2}}` both entries land in one branch, so no single source entry gives the answer.
- MergeProperties.MergeSourceLeaf: requires distinct lower-cased keys in the source. With `{"A": 1, "a": 2}` the later entry overwrites the earlier, so the leaf 1 at `["A"]` is not found at `["a"]`.
- MergeProperties.MergeIdempotent: requires distinct lower-cased keys in the source. MergeTwiceRaises shows a source without them whose second merge raises.
- Registry.MergeAllLeafAt: requires distinct lower-cased keys in every source, for the reason given for MergeLeafAt.
- Registry.ResolveLookup: also requires that no key of any source holds `.`. With defaults `{"a.b": 1}`, `get("a.b")` is 1 although the path `["a", "b"]` holds no leaf.
- Registry.GetKeyResolves: requires the same two conditions as ResolveLookup, for the same reasons.
- Registry.ConfigurationRegistry.MergeConfigs: reads every provider's `dict` before merging. The source interleaves reading and merging, which can differ only in which exception comes first.
- ExpandProperties.FlattenExpand: stated for trees whose keys are lower case, since `merge_dicts` lower-cases them, and whose leaves hold no comma text, since `expand_flattened_dict` splits it. It is also stated for the documented flatten only; the flatten as written collapses equal leaves (see Findings).

## Findings

| source | as written | input that shows it | evidently intended | confidence | as-written member | corrected member |
|---|---|---|---|---|---|---|
| cfitall/providers/base.py:14-19 | `EnvironmentProvider` inherits `provider_name = "not_implemented"` and an `update()` raising NotImplementedError, which `update_all` (manager.py:76-82) does not catch | `ConfigurationRegistry("app", providers=[EnvironmentProvider("app", "__", ",")]).update()` raises NotImplementedError; its `env_vars` is `[]` | the provider is named `"environment"` and `update()` returns True (`test_update` in tests/test_provider_environment.py:81-83, registry.py:90) | not executed | Manager.UpdateAllRaisesAsWritten | Manager.EnvironmentUpdateSucceeds |
| cfitall/utils.py:88-108 | `flatten_dict` extracts the distinct leaf values and files each under the path of the first leaf `==` to it; list leaves become comma-joined strings | `{"a": 1, "b": 1}` gives `{"a": 1}` | one entry per leaf, keyed by its dotted path (docstring at line 90) | not executed | FlattenProperties.FlattenCollapses | FlattenProperties.FlattenGet |
| cfitall/registry.py:52 | `EnvironmentProvider(name)` omits the two required separators of `__init__` (providers/environment.py:9-11) | `ConfigurationRegistry("app")` with no `providers` raises TypeError | an environment provider with `"__"` and `","` as separators | not executed | Registry.DefaultEnvironmentRaises | Registry.DefaultEnvVarsReadBack |
