# Opt and suggest_config, modelled in Dafny

This project models the configuration core of a small hyper-parameter
search boilerplate:

- `Opt`, a namespace of configuration options (options.py). A nested dict
  becomes a namespace (`from_dict`) and back (`to_dict`). A namespace becomes
  a flat dict with dot-joined keys (`to_flat_dict`, `_flatten_dict`) and back
  (`from_flat_dict`, `_expand_from_keys`, `_recursive_update`). Values are
  sanitized before a YAML dump (`sanitize_dict`), and a namespace is printed
  with indentation (`_to_str`).
- `suggest_config` (search.py). It flattens a base configuration and a
  search space. It asks an Optuna trial for one value per leaf
  `[kind, args]` of the search space. It merges the sampled values over the
  flat base, expands the result into a namespace, and appends
  `trial_NNNN` to its `out_dir`.

A key ending in `_` follows the "preserve as is" convention. `from_dict`
stores its value unchanged, even a dict, under the key itself and under
the key with its trailing underscores stripped. `to_dict` drops that bare
alias again.

## How the model is built

- `Values` holds the Python values the code distinguishes. A dict (and a
  namespace's `__dict__`) is an association list in insertion order.
  `Put` is `d[k] = v`: an existing key keeps its place, a new key goes
  last. The module also holds `str.rstrip("_")`, `str.split(".")`,
  `".".join` and the error kinds the code raises.
- Every looping function of the source is two things:
  - a specification function that folds over the first `n` entries;
  - a method that runs the same loop, with the same branches, and is
    proved to compute that function.
- The properties are lemmas about the specification functions. They are
  grouped in `NamespaceLaws`, `FlattenLaws`, `MergeLaws`, `ExpandLaws` and
  `OutputLaws`.
- `_recursive_update` changes the dict it is given and returns it.
  `Options.MergeInto` models that dict as a `DictObject` that is updated in
  place.
- The Optuna trial is the class `Search.Trial`. It has a number, an
  injected sampler and the list of calls made to it. The sampler is a
  function from the calls made so far and a new call to a value or an
  exception message.

## Model

| member | source | states |
|---|---|---|
| Values.RStrip | options.py:30 | the stripped name has no trailing `_`, is a prefix of the key, and only underscores were removed |
| Values.RStripUnchanged | options.py:30 | stripping changes a key exactly when it ends in `_` |
| Values.JoinSplit | options.py:80 | joining the segments of `key.split(".")` with dots gives the key back |
| Values.SplitJoin | options.py:126 | splitting the dot-join of non-empty, dot-free segments gives those segments back |
| Values.SplitInjective | options.py:80 | two keys with the same segments are the same key |
| Values.GetPut | options.py:150 | after `d[k] = v`, looking up `k` gives `v` and every other key is unchanged |
| Values.PutKeys | options.py:150 | `d[k] = v` keeps the key order when `k` is present and appends `k` otherwise |
| Values.PutDistinct | options.py:150 | `d[k] = v` keeps the keys of a dict distinct |
| Values.GetUpdate | options.py:128 | after `e.update(f)`, a key of `f` has `f`'s value and any other key keeps `e`'s |
| Options.FromDict | options.py:21-36 | the loop builds `Namespace(d)`: a dict under a plain key becomes a nested namespace; any other value, and every value under a key ending in `_`, is stored under the stripped name and under the key |
| Options.ToDict | options.py:38-52 | the loop builds `PlainDict(attrs)`: the stripped name is evicted before each attribute is stored, and nested namespaces become dicts |
| Options.FlattenDict | options.py:121-131 | the recursive loop computes `Flattened(d, prev)`, with the nested flat dict merged in by `update` |
| Options.UpdateDict | options.py:128 | the entry-by-entry loop computes `e.update(f)` |
| Options.ExpandFromKeys | options.py:133-141 | the cursor loop builds the single-path dict `{k0: {k1: ... {kn: value}}}`, and `{}` for no keys |
| Options.PutAtEnd | options.py:137-140 | the cursor after `i` keys points at the innermost `{}`, and writing there extends the path by one key |
| Options.RecursiveUpdate | options.py:143-151 | computes `Merged(d, u)`; on a value that is not a dict it fails unless `u` is empty |
| Options.MergeInto | options.py:143-151 | updates the given dict object in place and returns that same object; on failure, the object holds the merge of the entries before the first one whose nested merge fails |
| Options.MergedFailureSticks | options.py:146-148 | once a nested merge fails, the whole merge fails with that error |
| Options.FromFlatDict | options.py:54-90 | the loop builds the nested dict entry by entry and passes it to `from_dict`; a failed merge ends it with that error |
| Options.ExpandedFailureSticks | options.py:85-87 | once the expansion fails at some entry, `from_flat_dict` fails with that error |
| Options.ToFlatDict | options.py:92-94 | computes the flattening of `to_dict` of the namespace |
| Options.SanitizeDict | options.py:108-119 | the loop computes `Sanitized(d)`: dicts recursively, values of kinds other than bool, int, float, str, list, tuple and dict replaced by their `str` |
| Options.ToStr | options.py:153-164 | the loop produces `Rendered(attrs, indent)`: names ending in `_` skipped, a right-aligned `key: ` then the value and a newline, or a newline and the nested namespace indented by two more |
| NamespaceLaws.RStripTwice | options.py:30 | stripping underscores twice is stripping them once |
| NamespaceLaws.ConcatNames | options.py:29-35 | every attribute name comes from some key of the dict, either stripped or as it is |
| NamespaceLaws.NamespaceIsConcat | options.py:29-35 | when no two keys strip to the same name, the namespace is the entries' attributes one after the other (one attribute for a plain key, two for a key ending in `_`) |
| NamespaceLaws.RoundTrip | options.py:21-52 | for a dict with no clashing stripped names and no namespace values, `to_dict(from_dict(d)) == d`, order included, at every depth |
| NamespaceLaws.RoundTripStep | options.py:44-51 | `to_dict` turns the attributes of one more dict entry back into exactly that entry |
| NamespaceLaws.AliasEvicted | options.py:45-47 | the bare alias stored just before an underscored key is popped again when the underscored attribute is reached |
| NamespaceLaws.DualStorageExample | options.py:24-26 | `{message_: {x: 1}}` becomes the attributes `message` and `message_`, both holding the raw dict, and goes back to `{message_: {x: 1}}` |
| FlattenLaws.FlatHasNoDicts | options.py:127-130 | the flat dict holds no dict values |
| FlattenLaws.FlatDistinct | options.py:124-130 | the flat dict has distinct keys |
| FlattenLaws.FlattenedGet | options.py:121-131 | below prefix `ps`, the flat dict holds, under a key, the leaf at the end of that key's segments once `ps` is removed, and nothing else |
| FlattenLaws.FlattenLookup | options.py:121-131 | for a dict with dot-free keys, looking up a flat key gives the leaf at the path of its segments |
| FlattenLaws.FlattenCharacterized | options.py:121-131 | the flat dict has distinct keys and no dicts, each of its keys is the dot-join of a leaf path, and every leaf is found under the dot-join of its path |
| FlattenLaws.FlattenExample | options.py:123 | `{a: {ab: 0}}` flattens to `{a.ab: 0}` |
| MergeLaws.MergedLookup | options.py:143-151 | a key `u` lacks keeps `d`'s value; a non-dict in `u` overwrites; a dict in `u` is merged into `d`'s value (or into `{}`) |
| MergeLaws.MergedKeys | options.py:143-151 | the merge keeps the keys of `d` in their places and has exactly the keys of `d` and `u` |
| MergeLaws.MergedOnlyFailsOnNonDict | options.py:148-150 | the only error a merge raises is a lookup in, or an assignment into, a value that is not a dict |
| MergeLaws.MergedFlat | options.py:143-151 | merging a dict with no dict values is `dict.update` and never fails |
| ExpandLaws.PathDictLeaf | options.py:133-141 | the only leaf of the single-path dict is the value, at the end of the key path |
| ExpandLaws.PathDictNode | options.py:133-141 | the dicts inside the single-path dict are exactly those on proper prefixes of the key path (and inside the value) |
| ExpandLaws.MergePath | options.py:83-87 | merging a single-path dict whose path is open in a dict adds exactly that leaf and the dicts leading to it |
| ExpandLaws.ExpandStepIsMerge | options.py:79-89 | one expansion step is the merge of the key's single-path dict into the nested dict built so far |
| ExpandLaws.ExpandedShape | options.py:77-89 | for distinct keys, no dict values and no key a dotted prefix of another, each expansion step succeeds and the leaves are the flat entries at their paths |
| ExpandLaws.ExpandThenFlatten | options.py:54-94 | for such a flat dict, the expansion succeeds and flattening it gives every key's value back |
| ExpandLaws.FlatRoundTrip | options.py:57 | when moreover no two segments at a level strip to the same name and no value is a namespace, `to_flat_dict(from_flat_dict(flat))` holds the same value under every key as `flat` |
| ExpandLaws.FlattenedIsFlatInput | options.py:121-131 | the flattening of a dict with dot-free keys is a flat dict `from_flat_dict` can invert |
| ExpandLaws.FlattenThenExpand | options.py:54-94 | expanding the flattening of a dict with dot-free keys has the same leaves at the same paths |
| ExpandLaws.PlainKeysStayPut | options.py:88-89 | a flat dict without dotted keys expands to itself |
| ExpandLaws.PlainKeyOverwritesExample | options.py:88-89 | `{a.b: 1, a: 2}` expands to `{a: 2}`: a later plain key overwrites the nested dict |
| ExpandLaws.ScalarThenLongerFails | options.py:85-87 | a scalar key followed by a longer dotted key below it fails |
| ExpandLaws.DocShape | options.py:55-75 | for any dot-free names, the six-key shape of the docstring expands to the nested shape it shows |
| ExpandLaws.DocstringExample | options.py:59-75 | the docstring's own example expands as the docstring says |
| OutputLaws.SanitizedLookup | options.py:108-119 | the sanitized dict has exactly the keys of `d`, each value sanitized by its kind |
| OutputLaws.SanitizedKeys | options.py:110-119 | sanitizing keeps the keys and their order |
| OutputLaws.SanitizedDumpable | options.py:103-119 | the sanitized dict holds, at every depth, only the kinds `sanitize_dict` lets through |
| OutputLaws.SanitizedFixed | options.py:108-119 | a dict already of those kinds is unchanged |
| OutputLaws.SanitizedIdempotent | options.py:108-119 | sanitizing twice is sanitizing once |
| OutputLaws.SanitizedNoneExample | options.py:115-116 | `None` and a path are replaced by their `str`, a float is kept |
| OutputLaws.Visible | options.py:157-158 | the attributes `_to_str` shows are exactly those whose names do not end in `_` |
| OutputLaws.RenderedSnoc | options.py:156-163 | one more attribute adds its own line (or lines) at the end |
| OutputLaws.RenderedConcat | options.py:156-164 | the text of two runs of attributes is the two texts one after the other |
| OutputLaws.RenderedSkipsUnderscored | options.py:157-158 | the text is that of the attributes whose names do not end in `_` |
| OutputLaws.DualStoragePrintExample | options.py:157-163 | `{message_: {x: 1}}` prints as the one line `message: ` followed by the raw dict |
| Search.Trial.Suggest | search.py:64-69 | every call is recorded, whether it succeeds or raises |
| Search.UnpackKinds | search.py:61-63 | `a, b = v` succeeds exactly when `v` yields that many items: a list or tuple its elements, a string its characters, a dict its keys; any other value raises |
| Search.RequestOfKinds | search.py:61-71 | `int` and `float` forward their four arguments, `categorical` its choices, and any other kind raises |
| Search.IntLeafExample | search.py:62-64 | `["int", [1, 10, 1, false]]` asks for an int between 1 and 10 with step 1, not on a log scale |
| Search.LeafRequest | search.py:61-71 | the branches compute the request (or error) for one leaf |
| Search.SampledFailureSticks | search.py:70-71 | once the loop stops with an error, nothing else is sampled |
| Search.SampledCalls | search.py:60-71 | the trial gets one call per leaf, in order, named after the leaf; or the loop stopped at a leaf, which raised before or inside its call |
| Search.SampledCandidate | search.py:59-69 | when no leaf raises, the candidate has the leaves' keys and holds under each the value the trial answered to its call |
| Search.SampleLeaves | search.py:59-71 | the loop drives the trial exactly as `Sampled` says and returns that candidate or error |
| Search.DigitsDenote | search.py:75 | the decimal digits of the trial number denote that number |
| Search.Pad4Denotes | search.py:75 | `f"{n:04d}"` is all digits, denotes `n`, and is four characters for numbers below 10000; from 1000 on it has no leading zero, so it is exactly the decimal digits of `n` |
| Search.Pad4Examples | search.py:75 | 7 is written `0007`; 12345 is written `12345` |
| Search.WithTrialDirLookup | search.py:75 | `out_dir` gets the segment `trial_NNNN`; no other attribute changes |
| Search.WithTrialDirFlat | search.py:75 | extending `out_dir` leaves every other key of the flat dict with the value it had |
| Search.ConfigureTrial | search.py:73-75 | merges the candidate into the flat base in place, expands it, and extends `out_dir` |
| Search.SuggestConfig | search.py:53-76 | the configuration returned and the calls recorded by the trial are those of `SuggestedConfig` |
| Search.SampledScalarUpTo | search.py:60-69 | with a sampler that returns no dicts, the candidate holds no dicts |
| Search.SuggestedMerge | search.py:73 | the merge over the flat base is `dict.update`: sampled values win, other base values stay |
| Search.SuggestedStops | search.py:60-71 | a leaf that is not a valid `[kind, args]` makes `suggest_config` raise that error with the calls made before it; a leaf whose call the sampler answers with an exception makes it raise that exception, with that call the last one made |
| Search.SuggestedTunedLeaf | search.py:53-76 | when every leaf is sampled and the merged flat dict can be expanded back, `suggest_config` fails only for a missing or non-path `out_dir`, and otherwise the returned configuration holds, under each tuned key other than `out_dir`, the value the trial answered |
| Search.SuggestedBaseLeaf | search.py:53-76 | under the same conditions, the returned configuration keeps, under every key other than `out_dir` that the search space does not tune, the flat base's value |

## Left out

- `from_yaml` and `to_yaml` (options.py:96-106): file I/O and the YAML
  parser and dumper are not modelled. `sanitize_dict`, which prepares the
  dump, is modelled.
- `main` of options.py, and `run`, `main` and the command line of
  search.py: demo and orchestration code outside the core.
- The `print` calls in `suggest_config` (search.py:72, 74) have no effect
  on its result and are left out.
- Optuna itself is not modelled: its samplers, its storage and pruning.
  The trial's sampler is a parameter, and its state is seen only through
  the calls it records. A pruning signal or a sampler error is an
  exception message that comes back unchanged (`SamplerRaised`).
- Floats are opaque reals. Python's `str` of a value is a parameter `show`.
  Keys are strings only.
- Search.UnpackKinds: a `TypeError` (not iterable) and a `ValueError` (wrong
  number of items) from `a, b = v` are one error, `CannotUnpack`.
- Nested dicts and namespaces are values. The model does not capture
  aliasing between nested dicts. Only the top-level dict that
  `_recursive_update` changes in place is an object, `DictObject`.
- Options.MergeInto: after a failure, the object holds the merge of the
  entries before the failing one, with the value under the failing key
  as it was before. In Python the failed nested call has already changed
  that nested dict in place, and keeps those changes. For example, with
  the target `{a: {x: 1, z: 5}}` and `u = {a: {y: 2, z: {w: 1}}}`,
  `target["a"]` is left holding `y: 2`. Nested dicts are values here, so
  the model does not state this partial update.
- Options.RecursiveUpdate: on failure it returns only the error, as
  Python raises it. What the failed call leaves in the dicts it was given
  is the case `MergeInto` describes.
- The reassignment of `out_dir` (search.py:75) is `d[k] = v` on the
  namespace's attributes. `NotAPath` stands for a `/` on a value that is
  not a path, and `MissingAttribute` for a namespace without `out_dir`.
- Elements of lists and tuples are not sanitized. The source does not
  sanitize them either.
- NamespaceLaws.RoundTrip assumes that no two keys of a dict strip to the
  same name (for example `a` and `a_`). With such keys, `from_dict`
  overwrites one attribute with the other and the round trip loses data.
- ExpandLaws.FlatRoundTrip states that every key has the same value, not
  that the key order is the same. The key order can differ: `{a.x, b, a.y}`
  comes back as `{a.x, a.y, b}`.
- Options.ToStr: `_to_str` skips every attribute whose name ends in `_`
  (options.py:157-158). So a `_`-suffixed field is shown once, under its
  stripped name, with the raw value (`DualStoragePrintExample`).
- Search.SuggestedTunedLeaf: it assumes that the merged flat dict
  `from_flat_dict` receives is one `from_flat_dict` can invert. That means
  no key is a dotted prefix of another, no two segment names on the same
  path strip to the same name, and no value is a namespace. For other
  flat dicts, `from_flat_dict` can fail or overwrite one leaf with
  another, and nothing is promised. The value under `out_dir` is stated
  at namespace level by `WithTrialDirLookup`.
- Search.SuggestedBaseLeaf: it makes the same assumption about the merged
  flat dict, and the same exclusion of `out_dir`.
- Empty keys and keys with empty segments (`a..b`) are split as Python
  splits them. No contract excludes them.
