# olymp: C3 namespaces and the event loader, in Dafny

This project models the core of the olymp event catalogue. Events are records
in a layered namespace. Each record holds a local dict and an ordered list of
base records. A key is looked up along the record's C3 linearization.

- `c3.py` computes the linearization. Class `C` puts the namespace on top of it:
  lookup, `in`, `get`, `items()` and `dump`.
- `event.py` reads event definitions into such records:
  - grade lists such as `"5,7-9"`, and the inverse that prints a set back in that form;
  - attribute access that falls back to a falsy `junk` value;
  - date formatting and the table column defaults;
  - the segment and file loaders. Each definition becomes a record whose bases
    are the abstract events it names. A file becomes a record whose bases are
    its segments in text order.

Modules:

| file | module | models |
|---|---|---|
| `wrappers.dfy` | `Wrappers` | `Option`, `Result` and the exceptions the code raises |
| `c3.dfy` | `C3` | `merge`, `_c3` and `c3` of c3.py, over a graph `map<nat, seq<nat>>` |
| `c3_examples.dfy` | `C3Examples` | every assertion of c3.py's `test()`, proved |
| `values.dfy` | `Values` | the values a record holds, and Python dicts as ordered entry lists |
| `namespace.dfy` | `Namespace` | class `C` as a `Store` of records (`map<nat, Rec>`), lookup, `items`, `dump` |
| `text.dfy` | `Text` | `str.split(sep)`, `sep.join`, `str.split()`, `str(int)` and `int(str)` on digits |
| `grades.dfy` | `Grades` | `parse_grades`, `collapse_numbers_into_ranges`, `dump_grades` |
| `event.dfy` | `Event` | `NS`, `format_date`, `table_columns`, `_load_segment`, `_load_file` |

Design choices:

- **Records.** A Python `C` object is a node id. The `Store` class holds every
  record in a field `recs: map<nat, Rec>`, and its methods update that field in
  place as the Python methods update `__C_d__` and `__C_b__`.
- **Termination.** A ghost `rank` map gives each record a rank above its bases.
  It witnesses that the base graph is acyclic, which is what makes `_c3` terminate.
- **Sentinel.** The `None` that `_c3` appends is the `End` entry of a `Slot` list.
- **Errors.** Every exception the code raises is an `Err` of `Result`:
  - `TypeError("no legal mro")` is `NoLegalMro`;
  - `KeyError` is `KeyError(k)`;
  - a malformed definition is `BadBaseSpec`, `NonAbstractBase`, `NotARecord`,
    `BadGrades` or `NotADict`.
- **Inputs.** YAML parsing and file reading are not modelled:
  - `LoadSegment` takes the parsed document;
  - `LoadFile` takes the parsed parts of the file's text, split on its separator line.

What the code does where a general description of C3 would say otherwise:

- `_c3` merges only the bases' own linearizations (c3.py:20). It does not add
  the list of direct bases as one more input to the merge, as textbook C3 does.
  So declared base order is not always kept. `C3Examples.DeclaredOrderNotKept`
  proves that with `3:[1,2]` and `2:[1]`, node 3 gets `[3, 2, 1]`. Python's own
  C3 rejects that graph. The model follows the code.
- The graph with `6:[3,1]` has no linearization for node 7. With `6:[1,3]`,
  node 7 gets `[7, 4, 5, 6, 1, 2, 3]`. This is what c3.py's tests assert
  (c3.py:40-47), and both are proved.
- `_load_file` adds bases to a record that already exists (event.py:280). So
  bases are not fixed at construction. `Store.AppendBase` models that step, under the condition given for it under "## Left out".

## Model

| member | source | states |
|---|---|---|
| C3.Merge | c3.py:7-16 | on success the output holds every entry of every input list, each exactly once, and ends with the sentinel when the inputs do; the only failure is `NoLegalMro` |
| C3.Pick | c3.py:10-11 | no candidate is found exactly when every head, from the scan position on, occurs in some list's tail |
| C3.PickFirst | c3.py:10-11 | a found candidate is the first head in scan order that occurs in no tail |
| C3.RemoveAt | c3.py:13 | after choosing `c`, each list loses its head when that head is `c` and is otherwise unchanged |
| C3.PickStep | c3.py:10-14 | choosing a candidate removes it from every list, shrinks the input, and keeps the lists well shaped for the next round |
| C3.MergeStep | c3.py:12-14 | one merge round outputs the chosen candidate followed by the merge of what is left |
| C3.MergeStuck | c3.py:15-16 | when every head occurs in some tail, `merge` fails with `NoLegalMro` |
| C3.MergeKeepsOrder | c3.py:10-14 | every input list is a subsequence of a successful merge's output |
| C3.MergeSingle | c3.py:7-14 | a single list merges to itself |
| C3.MergeCopies | c3.py:7-14 | any number of copies of one list merge to that list |
| C3.MergeFan | c3.py:7-14 | lists `[s_i] + l` with a shared tail `l` merge to the heads in order followed by `l` |
| C3.Lin | c3.py:18-22 | `_c3(x)` starts with `x`, ends with the sentinel, has no duplicates, and lists only nodes of lower rank after `x`; the only failure is `NoLegalMro` |
| C3.BaseLins | c3.py:20 | the bases' lists are exactly each base's `_c3` in declared order, and this fails exactly when some base fails |
| C3.LinMerged | c3.py:19-20 | a node with bases whose lists merge to `out` gets `[x] + out` |
| C3.LinearizeStuck | c3.py:19-20 | a node whose bases' lists cannot be merged has no linearization |
| C3.Strip | c3.py:24-27 | removing the sentinel and putting it back gives the list `_c3` returned |
| C3.Linearize | c3.py:6-27 | `c3(x)` starts with `x` and has no duplicates; it is `[x]` for a node without bases; it succeeds exactly when `_c3(x)` does |
| C3.LinearizeFromLin | c3.py:24-27 | the linearization is the `_c3` list with its sentinel dropped |
| C3.BaseOrderKept | c3.py:10-14 | each base of a linearizable node linearizes, and its linearization is a subsequence of the node's |
| C3.LinearizeSingle | c3.py:19-20 | a node with one base `b` gets itself followed by `b`'s linearization, and fails when `b` fails |
| C3.LinearizeFan | c3.py:19-20 | a node whose bases all have the single base `b` gets itself, its bases in declared order, then `b`'s linearization |
| C3.LinAgree | c3.py:18-22 | `_c3(x)` depends only on the bases of nodes reachable from `x` |
| C3.LinearizeAgree | c3.py:6-27 | the same for `c3(x)` |
| C3.LinearizeClosed | c3.py:6-27 | every node of `x`'s linearization is reachable from `x` through bases |
| C3Examples.TestG1 | c3.py:32-34 | with `{1:[], 2:[], 3:[1,2]}`, nodes 1, 2 and 3 get `[1]`, `[2]` and `[3,1,2]` |
| C3Examples.TestG2 | c3.py:36-39 | with `4:[1,2], 5:[2,3], 6:[3,1]`, nodes 1, 4, 5 and 6 get `[1]`, `[4,1,2]`, `[5,2,3]` and `[6,3,1]` |
| C3Examples.TestG3 | c3.py:40-45 | with `6:[3,1]` and `7:[4,5,6]`, node 7 fails with `NoLegalMro` |
| C3Examples.TestG4 | c3.py:47 | with `6:[1,3]`, node 7 gets `[7,4,5,6,1,2,3]` |
| C3Examples.DeclaredOrderNotKept | c3.py:20 | node 3 declares bases `[1,2]` and still linearizes to `[3,2,1]` |
| Values.SetKey | c3.py:80-81 | after `d[k] = v`, `k` maps to `v`, every other key keeps its value, and the key set gains `k` |
| Values.SetKeyShape | c3.py:80-81 | setting a key keeps keys distinct, overwrites in place when present, and appends otherwise |
| Values.SetAll | event.py:268 | after `d \|= e`, a key of `e` maps to its value in `e` and any other key to its value in `d` |
| Values.RemoveKey | event.py:248 | after `pop(k)` the dict has every key but `k`, each with its old value |
| Values.FindEntry | c3.py:74-75 | in a dict with distinct keys, looking up an entry's key finds that entry's value |
| Namespace.Mro | c3.py:61-62 | `mro()` starts with the record itself and has no duplicates; the only failure is `NoLegalMro` |
| Namespace.LookupIn | c3.py:73-76 | the walk fails with `KeyError(k)` exactly when no record along the order has `k` locally |
| Namespace.LookupInFirst | c3.py:73-75 | a hit is the local value of the first record along the order that has `k` |
| Namespace.Lookup | c3.py:72-76 | `self[k]` is the record's own value when it has `k` locally, so that value shadows every base; it fails with `NoLegalMro` when `mro()` does and otherwise only with `KeyError(k)` |
| Namespace.LookupConcat | c3.py:72-76 | the walk finds the first entry for `k` in the local dicts concatenated along the order |
| Namespace.Unshadowed | c3.py:101-107 | the entries whose key was not seen before have the same keys, no key twice, and the same first value per key |
| Namespace.ItemsOf | c3.py:101-107 | `items()` exists exactly when `mro()` does and otherwise fails with `NoLegalMro`; it holds no key twice, and its keys are those of the local dicts along the order |
| Namespace.ItemsAgree | c3.py:101-107 | `items()` yields each key at most once, each yielded `(k, v)` has `self[k] == v`, and it yields exactly the keys that `self[k]` finds |
| Namespace.Dump | c3.py:109-117 | the result is plain data; a record dumps to a dict with exactly its `items()` keys in order; a dict keeps its keys in order; a list, tuple or set becomes a list of the same length; anything else is unchanged |
| Namespace.DumpDict | c3.py:113-114 | `dump` of a dict keeps every entry's key, in order, with the dump of its value; looking a key up in the result gives the dump of its value in the dict |
| Namespace.DumpRecord | c3.py:113-114 | `dump` of a record holds exactly the keys that `self[k]` finds, each mapped to the dump of the value found |
| Namespace.DumpColl | c3.py:115-116 | `dump` of a list, tuple or set is the list of its elements' dumps, in order |
| Namespace.DumpPlain | c3.py:112-117 | `dump` leaves plain data unchanged |
| Namespace.DumpIdempotent | c3.py:112-117 | dumping the output of `dump` again, against any store, gives the same result |
| Namespace.Frame | c3.py:61-76 | two stores that agree on a record and everything it reaches through bases give it the same `mro()`, lookup and `items()` |
| Namespace.SetLocal | c3.py:80-81 | after `self[k] = v` the record finds `v` under `k` whenever its `mro()` exists, no `mro()` changes, and no record's lookup of another key changes |
| Namespace.NewFrame | c3.py:68-70 | creating a record changes no existing record's `mro()` or lookup |
| Namespace.AppendFrame | event.py:280 | appending a base to a record that is no record's base changes no other record's `mro()` or lookup |
| Namespace.LookupOverOne | event.py:241 | a record with the single base `b` finds its own keys first and defers every other key to `b` |
| Namespace.MroFan | event.py:278-281 | a record whose bases all have the single base `b` has the order: itself, its bases in order, then `b`'s order |
| Namespace.LookupOverFan | event.py:278-281 | such a record with an empty dict finds a key in its first base that has it, else defers to `b` |
| Namespace.LookupUnreferenced | c3.py:72-76 | a lookup never yields a reference to a record that no record refers to |
| Namespace.RankedNew | c3.py:68-70 | a new record over existing bases keeps the base graph acyclic |
| Namespace.RankedRebase | c3.py:70 | giving a record new bases none of which reaches it back through bases keeps the base graph acyclic |
| Namespace.AddUnseen | c3.py:104-107 | the inner loop of `items()` extends the output to the unshadowed entries of everything walked so far |
| Namespace.Store.New | c3.py:68-70 | `C(d, b)` adds exactly one fresh record with dict `d` and bases `b`, and keeps the store valid |
| Namespace.Store.SetItem | c3.py:80-81 | `self[k] = v` changes only this record's dict; afterwards the record finds `v` under `k` whenever its `mro()` exists, and no `mro()` and no other key's lookup changes |
| Namespace.Store.Update | event.py:268 | `__C_d__ \|= e` sets every entry of `e` in the record's dict and changes nothing else |
| Namespace.Store.AppendBase | event.py:280 | `__C_b__.append(y)` gives the record `y` as its last base and changes nothing else |
| Namespace.Store.SetDict | c3.py:69 | `x.__C_d__ = d` makes `d` the record's local dict and changes nothing else |
| Namespace.Store.SetBases | c3.py:70 | `x.__C_b__ = bs` makes `bs` the record's bases and changes nothing else, with the graph kept acyclic |
| Namespace.Store.GetItem | c3.py:72-76 | `self[k]` returns the lookup along `mro()` |
| Namespace.Store.Walk | c3.py:73-76 | the loop over the order returns the first local hit, or `KeyError(k)` |
| Namespace.Store.Contains | c3.py:83-89 | `k in self` is true exactly when the lookup succeeds, whatever the value; it fails only when `mro()` does |
| Namespace.Store.Get | c3.py:95-99 | `get(k, default)` is the lookup when it succeeds and `default` exactly when the key is missing; it fails when `mro()` does |
| Namespace.Store.Items | c3.py:101-107 | the nested loops yield exactly `items()` of the record |
| Text.Split | event.py:198 | `s.split(sep)` gives at least one piece, and `[s]` when `s` has no separator |
| Text.SplitFacts | event.py:198 | the pieces hold no separator and join back to `s` |
| Text.SplitJoin | event.py:202 | splitting the join of pieces without the separator gives the pieces back |
| Text.Words | event.py:250 | `s.split()` gives non-empty words without whitespace (the characters for which `str.isspace()` holds), which together hold the non-whitespace characters of `s` in order |
| Text.WordsJoin | event.py:250 | splitting words joined by spaces gives the words back |
| Text.NatStr | event.py:202 | `str(n)` is a non-empty string of digits with no leading zero |
| Text.ParseNat | event.py:194 | `int(s)` succeeds exactly on non-empty digit strings |
| Text.ParseNatStr | event.py:194 | `int(str(n)) == n` |
| Grades.Span | event.py:196 | `range(a, b + 1)` holds exactly the integers from `a` to `b` |
| Grades.ParseItem | event.py:192-196 | an item without `-` is `{int(item)}`; an item with `-` must split into exactly two numbers; any other item is `BadGrades` |
| Grades.ParseItemRange | event.py:194-195 | a range item `a-b` holds exactly the integers from `a` to `b`, and none when `a > b` |
| Grades.ParseRange | event.py:194-195 | an item `p-q` whose ends read as `a` and `b` is `set(range(a, b + 1))` |
| Grades.ParseItemLeadingZero | event.py:194-195 | `"07-9"` is `{7, 8, 9}`: a leading zero is read as `int()` reads it |
| Grades.ParseItemLeadingZeroEnd | event.py:194-195 | `"5-05"` is `{5}` |
| Grades.ParseItemReversed | event.py:194-195 | `"9-7"` is valid and is the empty set |
| Grades.ParseItems | event.py:198 | the union succeeds exactly when every item parses and holds exactly the numbers of the items' sets |
| Grades.ParseGrades | event.py:189-198 | the only failure is `BadGrades`, and empty text fails |
| Grades.SortedSeq | event.py:223 | `sorted(nums)` is strictly increasing with exactly the set's elements |
| Grades.Runs | event.py:222-231 | there are no more runs than numbers, every run has `a <= b`, and the first run starts at the first number |
| Grades.RunsShape | event.py:219-231 | the runs of a sorted sequence each have `a <= b`, with a gap of at least one missing number between consecutive runs |
| Grades.RunsCover | event.py:219-231 | the runs of a sorted sequence stand for exactly its numbers |
| Grades.RunsLast | event.py:223-231 | there is a run exactly when there is a number, so empty input yields nothing |
| Grades.Collapse | event.py:219-231 | the loop yields the runs of the sorted numbers in order, each as `[a]` or `[a, b]` |
| Grades.CollapseSorted | event.py:222-231 | over sorted numbers, the loop closed by the sentinel yields every maximal run of consecutive numbers in order, each as `[a]` or `[a, b]` |
| Grades.ParseRunText | event.py:195-196 | a written run `a` or `a-b` of natural numbers reads back as its numbers |
| Grades.GradesRoundTrip | event.py:189-202 | `parse_grades(dump_grades(s)) == s` for every non-empty set of natural numbers |
| Grades.DumpGrades | event.py:201-202 | `dump_grades` joins the written runs with `,`, and its text parses back to the set it came from |
| Grades.GradesText | event.py:201-202 | `dump_grades` gives the empty text exactly for the empty set |
| Event.GetAttr | event.py:34-38 | `__getattr__(attr)`, which Python calls for a name the class does not define, is the lookup when it succeeds, the falsy `junk` when the key is missing, and `NoLegalMro` when `mro()` fails |
| Event.RecordIds | c3.py:59 | a list value is a list of records exactly when every element is a record of the store, and then it gives their ids in order |
| Event.SetAttr | event.py:40-43 | `__C_d__` and `__C_b__` (the slots of c3.py:57-59) replace the record's local dict or bases, refusing a value the store cannot hold; any other dunder name leaves every record as it is; any other name is `self[attr] = val`, after which the record finds `val` whenever its `mro()` exists |
| Event.FormatDate | event.py:209-216 | a string is returned as it is; a dict with scalar `start` and `end` becomes `"start - end"` |
| Event.FormatDateExtra | event.py:211-212 | extra keys next to `start` and `end` do not change the result |
| Event.TableColumns | event.py:109-116 | every column has the keys of the defaults and of its declaration |
| Event.ColumnFlags | event.py:109-116 | every column is visible, keeps its id and title, is sortable unless it declares `sortable: False`, and has `html: True` exactly when it declares it, with no `html` key otherwise |
| Event.UnsortableColumns | event.py:62-108 | exactly the `url`, `grades` and `solutions_url` columns are not sortable |
| Event.HtmlColumns | event.py:62-108 | exactly the `url` and `solutions_url` columns are declared with `html: True` |
| Event.BaseIds | event.py:248-256 | a missing or null `$` gives no bases; a value that is neither a string, a list nor null is `BadBaseSpec`; the only errors are `BadBaseSpec` and `NonAbstractBase` |
| Event.AbstractIds | event.py:257-260 | base ids succeed exactly when all are strings starting with `$`; a non-string is `BadBaseSpec`, and a concrete id is `NonAbstractBase` |
| Event.BaseIdsText | event.py:248-250 | a string base spec is its whitespace-separated words, which must all be abstract |
| Event.AbstractStrs | event.py:251-252 | a list of id strings is taken as it is when every id is abstract |
| Event.BaseIdsSpellings | event.py:248-252 | `$: "$a $b"` and `$: ["$a", "$b"]` give the same base ids |
| Event.GradesOf | event.py:265-266 | the grades of a string are `parse_grades` of it; the only failure is `BadGrades` |
| Event.GradesOfText | event.py:266 | text written by `dump_grades` reads back as its set |
| Event.GradesOfNat | event.py:190-194 | a bare number `n` is the single grade `n` |
| Event.GradesOfNegative | event.py:190-196 | a negative number is rejected |
| Event.EventFields | event.py:262-268 | building the event's dict fails exactly when it has `grades` that do not parse |
| Event.AddRest | event.py:265-268 | adding the parsed grades and the rest of the definition fails exactly when it has `grades` that do not parse, and then with `BadGrades` |
| Event.EventFieldsFind | event.py:262-268 | the event holds the parsed grades under `grades`, its definition's value under every other key, `id` when the definition has no `id`, and never `$` |
| Event.Found | event.py:261 | the looked-up bases succeed exactly when every lookup found a record, and then they are those records in order |
| Event.Resolve | event.py:261 | `[events[id] for id in base_ids]` succeeds exactly when every id is found as a record in the segment, in declared order |
| Event.ResolveStep | event.py:261 | the first id that fails decides the error; a found record joins the bases and resolution goes on |
| Event.ResolveBases | event.py:261 | the loop over the ids returns exactly `Resolve` |
| Event.FillRest | event.py:265-268 | the event's dict gains the parsed grades and the rest of the definition, or the step fails with the grades error |
| Event.FillEvent | event.py:263-268 | the new event's dict becomes exactly `EventFields`, and only that record changes |
| Event.LoadEvent | event.py:246-268 | a non-dict is `NotADict`; a bad or concrete base spec, a base not found or a bad grades entry fails with its error; otherwise one fresh event holds its fields and the resolved bases, and no existing record changes |
| Event.SegEntries | event.py:269 | the segment's dict maps each definition's id to its event, in order |
| Event.SegEntriesFind | event.py:269 | a segment holds exactly the defined ids, each mapped to the event made for it |
| Event.SegLookupAgrees | event.py:241 | the segment finds its own events first and defers every other id to the built-in events |
| Event.SegmentStep | event.py:246-269 | storing one more loaded event under its id extends the loaded segment and leaves the earlier records alone |
| Event.LoadSegment | event.py:234-271 | a new segment over the built-ins holds, for every definition, a fresh event loaded from it, and no existing record changes; a document that is neither a dict nor empty is `NotADict` |
| Event.LoadEntries | event.py:246-269 | on success every definition was loaded into the segment |
| Event.LoadNext | event.py:246-269 | one iteration loads the next definition and stores it in the segment |
| Event.SegmentLookup | event.py:241-269 | in a loaded segment an id finds its own event, and every other key is what the built-ins hold |
| Event.SegsLookup | event.py:278-281 | no segment answers a key exactly when no part defines it |
| Event.LookupInSegs | event.py:279-280 | walking the segments in order finds the event of the first segment that defines the key |
| Event.FileLookupHolds | event.py:278-281 | in the file's record, an id from an earlier segment shadows the same id in a later one, and other keys go to the built-ins |
| Event.FileStep | event.py:279-280 | appending one more loaded segment as a base extends the loaded file |
| Event.LoadFile | event.py:274-281 | a fresh record has one loaded segment per part, in text order, and finds each key in the first segment defining it, else in the built-ins; a part that is neither a dict nor empty fails; no existing record changes |
| Event.FileLookupAll | event.py:278-281 | every key of the file's record resolves as those shadowing rules say |
| Event.LoadParts | event.py:279-280 | on success every part was loaded and appended in order |
| Event.LoadPart | event.py:280 | one part is loaded as a segment and appended as the file's next base |

## Left out

- Cycles in the base graph: `_c3` recurses without end on them. The model requires a rank witness (`Ranked`) that the graph is acyclic.
- Python object identity (`id()`, `is`, c3.py:11-13): nodes are numbers, so identity is equality.
- Aliasing: two Python names for one `C` object are one node id here. The model therefore does not capture a change seen through another reference.
- YAML parsing (event.py:235-239), including the `print` on a parse error; reading the file (event.py:276); and splitting the text on the `#` line (event.py:279). The loaders take the parsed values instead.
- `load` (event.py:284-298), with its directory walk and `rglob` order; `main.py`; `Event.display` (event.py:131-186) with its float sort key, `format_map`, HTML and emoji; `html_link`; `format_dict`; `RespItem`; every `__repr__`. All are I/O or display code.
- Generators (`items`, `collapse_numbers_into_ranges`) produce finite sequences all at once.
- Python's lenient `int()`: surrounding whitespace, a sign, `_` separators, and non-ASCII decimal digits (`int('٣') == 3`). Only ASCII digit strings parse.
- Set iteration order: a stored `grades` set keeps its elements in increasing order.
- Non-string dict keys: every key is a string.
- Floats and dates: a parsed value is a string, an integer, a boolean, null, a dict or a list. YAML also yields floats (`diff: 2.5`) and dates (`2024-09-01`). So `format_date` of a date is not modelled: neither its `str` inside a `start`/`end` dict nor the `repr` `datetime.date(2024, 9, 1)` of a bare date. Nor is a `grades` entry written as a float, which `parse_grades` rejects when `int('2.5')` fails.
- Event.GetAttr: models `__getattr__` itself. Python answers names that the class or the object defines before calling it: `mro`, `get`, `items`, `dump`, `display`, `table_columns` and the two slots. An `ns.attr` for one of them gives that attribute, never the record's value under the same key.
- Event.FormatDate: renders the `repr` only of scalars. A container without `start`/`end` gives `None` here, because its `repr` text is not modelled. Likewise a `start` or `end` that is itself a list, a dict or a record gives `None`, where Python renders its `str()` (`{start: 1, end: []}` becomes `"1 - []"`).
- Namespace.Dump: dumping a record that is already being dumped gives `RecursionLimit`. This stands in for Python's `RecursionError` on self-referencing records.
- Namespace.Dump: a reference to a record outside the store dumps to an empty dict. That cannot arise in Python.
- Namespace.Store.AppendBase: requires the record to be no record's base, which `_load_file`'s fresh result always satisfies. The source imposes no such condition.
- Event.SetAttr: refuses, with `ok` false and nothing changed, a `__C_d__` that is not a dict and a `__C_b__` that is not a list of records of the store or would make the base graph cyclic. Python stores such a value, and a later lookup fails or recurses without end. Other dunder names are set on the Python object outside the namespace (or, like `__class__`, change its class), which is not modelled.
- Event.Resolve: a base id that names a value that is not a record fails at once with `NotARecord`. Python would fail only later, when the event's `mro()` is computed.
- Event.LoadSegment: states the error only for a document that is neither a dict nor empty. For a bad definition, the record left behind on failure is not described.
- Event.LoadFile: states the error only for parts that are neither dicts nor empty. It does not state that loading succeeds when every definition is well formed. Records left behind by a failed load are not described.
- Event.LoadFile: requires that every reference held in the store names a record of the store (`RefsClosed`). This always holds for Python objects.
