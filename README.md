# milvus-lite core, modelled in Dafny

milvus-lite is the embedded edition of the Milvus vector database: a native
engine process that serves the Milvus gRPC API over a local unix socket,
keeps collection metadata in SQLite and delegates vector work to the segcore
library, together with Python wrappers that render the server's YAML
configuration and start, lock and stop that process.

This project models the deterministic core between those foreign pieces and
proves properties of the model:

- **Engine facade and state.** `MilvusLocal` (collection-name rules,
  load/release/create/drop, index create/drop, insert and upsert over
  storage and index maps), the loaded-collection map `Index`,
  `CollectionMeta::CollectionInfo` (index name to index description) and the
  BM25 `Stats` counters are Dafny classes whose methods are proved against
  value-level specification functions.
- **Request tasks.** Create collection, create index (per-index-type
  parameter tables, auto-index defaults, training checks), search, query,
  hybrid search (rank parameters, score accumulation, sort-then-slice,
  output fetching), insert (row ids, field map, dynamic field, vector dim
  checks), upsert and delete, with the helpers of `schema_util.cpp` (dims,
  metric types, slicing and picking field data, output-field translation,
  reduce by ids, schema equality).
- **Filter-expression type system.** The data-type lattice, result-type
  computation, comparison reversal, LIKE-pattern translation, schema-helper
  construction, JSON-path tokenising, constant folding, range inclusivity
  and array-literal typing of the expression visitor.
- **Functions.** `FunctionMeta`, `BM25Function` validation and its insert
  and search processing, and the `FunctionExecutor` dispatch.
- **Support types.** `Status` codes, the string helpers, and `MilvusID`
  keys with their order.
- **Python layer.** The `{{ key(type): default }}` config template engine
  with its port resolver and extra-config rewriting, the two `Server`
  supervisors (db-name rule, hidden lock and socket files, child argv and
  environment, start/stop state machine) and the `ServerManager` registry.

Sockets, file locks, child processes, SQLite, segcore, the tokenizer and
protobuf encoding are not modelled. Their outcomes enter the model as
parameters: booleans for "lock acquired", "child exited", "commit
succeeded" and "port is free", statuses returned by the segcore wrapper,
and an embedding function. C++ integer widths are explicit range
predicates. Protobuf messages are Dafny datatypes, for example a field
column is a type tag plus a sequence of cells.

## Model

| member | source | states |
|---|---|---|
| StringUtil.ToLower | src/string_util.hpp:14-22 | keeps the length; each upper-case ASCII letter becomes the letter 32 code points higher, every other character stays |
| StringUtil.ToUpper | src/string_util.hpp:24-32 | keeps the length; each lower-case ASCII letter becomes the letter 32 code points lower, every other character stays |
| StringUtil.CaseMapsAgree | src/string_util.hpp:14-32 | lower-casing after upper-casing equals lower-casing alone, and the reverse; lower-casing is idempotent |
| StringUtil.IsAlphaIffCased | src/string_util.hpp:55-61 | `IsAlpha(c)` holds exactly for the characters the two case maps send to different places |
| StringUtil.FirstNotSpace | src/string_util.hpp:36-38 | `find_first_not_of`: every character before the index is trim-space, the one at it is not, |s| (npos) when there is none |
| StringUtil.EndNotSpace | src/string_util.hpp:39 | `find_last_not_of` plus one: every character from the index on is trim-space, the one before it is not |
| StringUtil.Trim | src/string_util.hpp:34-41 | the result is empty or neither starts nor ends with a character of " \t\n\r\f\v" |
| StringUtil.TrimSpec | src/string_util.hpp:34-41 | the result is a contiguous slice s[a..b] with only trim-space before a and after b; it is empty exactly when s is all trim-space |
| StringUtil.TrimFixpoint | src/string_util.hpp:34-41 | a string that neither starts nor ends with trim-space is its own Trim |
| StringUtil.TrimIdempotent | src/string_util.hpp:34-41 | Trim(Trim(s)) == Trim(s) |
| StringUtil.Join | src/string_util.hpp:49-53 | no parts give "", one part gives that part (the general case is Tokenizer.JoinCons) |
| Tokenizer.JoinCons | src/string_util.hpp:49-53 | joining `[p] + rest` is p, the delimiter, then the join of a non-empty rest |
| MilvusStatus.CodeValueInjective | src/status.h:10-44 | distinct ErrCode enumerators carry distinct numbers, and only Succ is 0 |
| MilvusStatus.FromCStatus | src/status.h:49-62 | a non-zero segcore code gives code 2000, msg "segcore error" and detail = the C message; a zero code gives code 0 with empty texts; IsOk iff the C code is 0 |
| MilvusStatus.FactoryCodes | src/status.h:84-213 | each factory fixes its code (ServiceInternal 5, CollectionNotFound 100, IndexNotFound 700, ParameterInvalid 1100, SegcoreErr 2000, Undefined 65535, ...) and only Ok() is a success |
| MilvusStatus.NonSuccIsErr | src/status.h:221-224 | a status built from any enumerator other than Succ is an error |
| MilvusStatus.OkErrComplement | src/status.h:216-224 | IsErr is exactly the negation of IsOk |
| MilvusStatus.MoveAssign | src/status.h:247-253 | the moved-to status has the source's code, message and detail, and is ok exactly when the source is |
| MilvusStatus.MoveForgetsTarget | src/status.h:247-253 | what the target held before a move assignment does not matter: the result equals the source |
| MilvusIds.FromInt | src/milvus_id.hpp:27-30 | an INT id carrying the value |
| MilvusIds.FromStr | src/milvus_id.hpp:32-35 | a STR id carrying the text |
| MilvusIds.FromIDs | src/milvus_id.hpp:37-45 | the int branch is taken exactly when the IDs hold ints, and the id is element idx of that list |
| MilvusIds.EqIsEquality | src/milvus_id.hpp:50-57 | between ids of one kind, operator== is structural equality |
| MilvusIds.LessStrictOrder | src/milvus_id.hpp:59-66 | within one kind, operator< is irreflexive, asymmetric and transitive |
| MilvusIds.LessTotal | src/milvus_id.hpp:50-66 | within one kind any two ids are equal or ordered one way, and equal ids are not ordered |
| MilvusIds.AppendToIDs | src/milvus_id.hpp:68-75 | an INT id is appended to the int list and a STR id to the string list; switching the oneof branch drops the other list |
| MilvusIds.AppendRoundTrip | src/milvus_id.hpp:37-75 | appending element i of an IDs to empty IDs gives a one-element copy that reads back as the same id |
| MilvusIds.AppendKeepsPrefix | src/milvus_id.hpp:68-75 | appending to a list of the same kind keeps every id already there at its index |
| Lex.LessTotal | src/milvus_id.hpp:63-64 | std::string `<` is total: distinct strings are ordered one way |
| Lex.LessTransitive | src/milvus_id.hpp:63-64 | std::string `<` is transitive |
| Lex.LessAsymmetric | src/milvus_id.hpp:63-64 | std::string `<` is asymmetric |
| Lex.LessIrreflexive | src/milvus_id.hpp:63-64 | no string is below itself |
| Lex.Insert | src/create_index_task.cpp:535-547 | std::set::insert keeps the sequence sorted and holds exactly the old elements plus x |
| Lex.Erase | src/schema_util.cpp:493-535 | std::set::erase keeps it sorted and holds exactly the old elements except x |
| Lex.SetOf | src/schema_util.cpp:493-535 | the set built from a sequence is sorted and holds exactly its elements |
| Lex.SortedUnique | src/schema_util.cpp:493-535 | two sorted sequences with the same elements are equal: a std::set has one iteration order |
| StdMap.FindEntry | src/common.h:39 | in a valid KVMap every entry is what find returns for its key |
| StdMap.Assign | src/create_index_task.cpp:257-277 | `m[k] = v`: the map stays valid, k maps to v and every other key keeps its value |
| StdMap.Erase | src/create_index_task.cpp:279-300 | `m.erase(k)`: the map stays valid, k is gone, every other key keeps its value |
| StdMap.InsertNew | src/create_index_task.cpp:486-500 | `insert` of one pair: a key already present keeps its value, a new key takes v |
| StdMap.InsertRangeFind | src/create_index_task.cpp:486-500 | after inserting a range, a key keeps its old value or takes the first value the range gives it |
| Decimal.DigitRun | src/search_task.cpp:55 | the length of the leading run of digits: all digits before it, a non-digit at it |
| Decimal.NatToString | src/insert_task.cpp:175-176 | a non-empty run of digits |
| Decimal.DigitsOfNat | src/insert_task.cpp:175-176 | the digits printed for n have the value n |
| Decimal.StollToString | src/hybrid_search_task.cpp:40 | std::stoll reads back every int64 that std::to_string printed |
| Decimal.ToStringInjective | src/insert_task.cpp:175-176 | two different int64 values never print the same text |
| Tokenizer.Find | src/parser/utils.h:122-128 | std::string::find from `start`: the first occurrence at or after start, -1 for npos |
| Tokenizer.Tokenize | src/parser/utils.h:119-129 | the loop returns exactly the pieces between occurrences of the delimiter, the piece after the last one included |
| Tokenizer.SplitJoin | src/parser/utils.h:119-129 | joining the pieces with the delimiter rebuilds the input, and there is at least one piece |
| Tokenizer.SplitPiecesFree | src/parser/utils.h:119-129 | no piece contains the delimiter |
| Tokenizer.SplitOfJoin | src/parser/utils.h:119-129 | when the delimiter's first character occurs in no part, tokenize undoes join |
| Tokenizer.SplitOfJoinOpenEnd | src/parser/utils.h:119-129 | the same round trip when only the last part may hold the first character but not the delimiter |
| PyRuntime.Strip | src/milvus/__init__.py:130-139 | the result is empty or neither starts nor ends with whitespace |
| PyRuntime.StripSpec | src/milvus/__init__.py:130-139 | strip drops a leading and a trailing run of whitespace and keeps the middle unchanged |
| PyRuntime.StripFixpoint | src/milvus/__init__.py:130-139 | a string that neither starts nor ends with whitespace is its own strip |
| PyRuntime.StripIsRStripOfLStrip | src/milvus/__init__.py:130-139 | `strip()` equals `rstrip()` applied after `lstrip()` |
| PyRuntime.Split | src/milvus/__init__.py:133-138 | `str.split(sep)` gives at least one piece |
| PyRuntime.SplitTwoOnce | src/milvus/__init__.py:133 | splitting at one character into exactly two pieces means it occurs exactly once |
| PyRuntime.TwoOccurrencesSplitThree | src/milvus/__init__.py:133 | two occurrences give more than two pieces, so the two-way unpack fails |
| PyRuntime.ReplaceIsJoinOfSplit | src/milvus/__init__.py:277 | `s.replace(sub, repl) == repl.join(s.split(sub))` for a non-empty sub |
| PyRuntime.ReplaceAbsent | src/milvus/__init__.py:277 | a text that does not occur leaves the string unchanged |
| PyRuntime.ReplaceRemovesChar | src/milvus/__init__.py:140 | `replace(c, '')` leaves no occurrence of c and never lengthens the text |
| PyRuntime.IntOf | src/milvus/__init__.py:226 | `int(text)` raises only ValueError and returns only for text that is not blank after strip |
| PyRuntime.Str | src/milvus/__init__.py:217 | `str(v)` of an int reads back through `int()` to the same int |
| PyRuntime.IntOfToString | src/milvus/__init__.py:214-226 | `int(str(n)) == n` for every integer |
| PyRuntime.IntOfValue | src/milvus/__init__.py:179-186 | `int(v)`: an int is itself, None raises TypeError |
| PyRuntime.PathJoin | src/milvus/__init__.py:233-249 | `os.path.join` on POSIX: an absolute second part wins, otherwise one '/' between the parts |
| PyRuntime.SplitLines | src/milvus/__init__.py:285 | `str.splitlines()`: no line holds a line boundary |
| PyRuntime.SplitLinesOfTerminated | src/milvus/__init__.py:285-307 | lines written out with "\n" after each split back into the same lines |
| PyRuntime.Put | src/milvus/__init__.py:257-262 | `d[k] = v`: k maps to v, every other key keeps its value, the old key order is a prefix of the new one and grows only for a new key |
| PyRuntime.Del | python/src/milvus/server_manager.py:35 | `del d[k]`: the key leaves the entries and the key order, every other key stays in order |
| MilvusConfig.TypeOfHint | src/milvus/__init__.py:119-124 | a hint has a type exactly when it is "int", "bool", "str" or "string" |
| MilvusConfig.GetValue | src/milvus/__init__.py:220-227 | only an int conversion of non-empty text can raise, and then ValueError; a returned bool or int has the asked type; a str is returned always and is None exactly when there is no text |
| MilvusConfig.GetValueText | src/milvus/__init__.py:214-217 | everything but a bool is written through `str()` |
| MilvusConfig.GetValueReadsBack | src/milvus/__init__.py:214-227 | what `get_value_text` writes for a value of a given type, `get_value` reads back as that value |
| MilvusConfig.IntReadsBack | src/milvus/__init__.py:223-226 | an int written in decimal is read back as that int |
| MilvusConfig.BoolDefaultIsExact | src/milvus/__init__.py:221-222 | a bool default is true exactly for the text "true" |
| MilvusConfig.LastClose | src/milvus/__init__.py:126 | the last "}}" that ends by n, or -1 when there is none |
| MilvusConfig.LastOpen | src/milvus/__init__.py:126 | the last "{{" that ends by n, or -1 when there is none |
| MilvusConfig.Span | src/milvus/__init__.py:126-128 | the greedy match: the group runs from the last "{{" before the last "}}" to that "}}"; there is no match exactly when no "{{" ends before a "}}" starts |
| MilvusConfig.PlaceholderInLine | src/milvus/__init__.py:126-129 | the recorded placeholder text `'{{' + group + '}}'` is a piece of the line itself |
| MilvusConfig.TwoColonsRaise | src/milvus/__init__.py:132-133 | a placeholder body with two ':' fails the two-way unpack with ValueError |
| MilvusConfig.TwoColonsRejected | src/milvus/__init__.py:125-134 | a line whose placeholder body holds two ':' stops `parse_template` with ValueError |
| MilvusConfig.HintedKey | src/milvus/__init__.py:131-141 | `name(hint)` declares the hinted type for int/bool/str/string and raises KeyError naming the hint otherwise; a key without '(' is a str |
| MilvusConfig.HintSplit | src/milvus/__init__.py:138 | splitting `name(hint)` at '(' gives exactly the name and `hint)` |
| MilvusConfig.HintUnclosed | src/milvus/__init__.py:139-140 | `hint)` stripped and with ')' removed is the hint again |
| MilvusConfig.LineResults | src/milvus/__init__.py:125 | one result per template line |
| MilvusConfig.LineResultsAt | src/milvus/__init__.py:125-143 | result i is what line i declares |
| MilvusConfig.AtMostOneItemPerLine | src/milvus/__init__.py:125-143 | one more line adds at most one item, at the end, and keeps the order of the others |
| MilvusConfig.NoErrorBefore | src/milvus/__init__.py:125-143 | a run that ends without an exception had none after any earlier line |
| MilvusConfig.LastDeclarationWins | src/milvus/__init__.py:142-143 | the last line declaring a key decides its [type, default], and the last line with a placeholder text decides which key that text stands for |
| MilvusConfig.ErrorStays | src/milvus/__init__.py:125-143 | once a line has raised, the later lines change nothing |
| MilvusConfig.RecordAllLinked | src/milvus/__init__.py:142-143 | a run without an exception keeps both dicts well formed, every placeholder linked to an item, and every earlier item present |
| MilvusConfig.ParsedValid | src/milvus/__init__.py:110-144 | parsing without an exception keeps the whole config well formed |
| MilvusConfig.FirstFreeIsFirst | src/milvus/__init__.py:163-173 | the scan answers the first port of [start, start + 10000) that binds and is not held, and answers None only when none of them qualifies |
| MilvusConfig.PortKeys | src/milvus/__init__.py:176 | exactly the item keys ending in "_port" |
| MilvusConfig.BindKey | src/milvus/__init__.py:178-187 | a port the key obtains is bindable |
| MilvusConfig.ConfiguredPortBindsOrRaises | src/milvus/__init__.py:178-182 | a port given in the configs binds as given, or the pass raises RuntimeError naming the key and the port |
| MilvusConfig.ScannedPortIsFirstFree | src/milvus/__init__.py:183-187 | without a configured port (and with an unset default) the key gets the first bindable port from 40000, or None |
| MilvusConfig.BindKeys | src/milvus/__init__.py:177-189 | the pass keeps listen_ports a proper dict and only adds the keys it visits |
| MilvusConfig.PutFreshPort | src/milvus/__init__.py:164-172 | adding a port no entry holds keeps the ports distinct |
| MilvusConfig.BindKeysDistinct | src/milvus/__init__.py:164-188 | no two `_port` keys of one pass get the same port |
| MilvusConfig.ResolvedPortsDistinct | src/milvus/__init__.py:151-153 | the pass `resolve` runs never binds one port for two `_port` items |
| MilvusConfig.BindKeysErrorStays | src/milvus/__init__.py:180-182 | a pass that raised at some key binds nothing after it |
| MilvusConfig.WriteBack | src/milvus/__init__.py:190-191 | the second loop keeps the item keys and their order |
| MilvusConfig.SetPort | src/milvus/__init__.py:191 | the item keeps its type and its place |
| MilvusConfig.WriteBackValues | src/milvus/__init__.py:190-191 | every item with a listen_ports entry holds its port (None when the scan found none) and keeps its type; every other item is unchanged |
| MilvusConfig.PortsValid | src/milvus/__init__.py:175-191 | binding the `_port` items keeps the config well formed, whether or not the pass raised |
| MilvusConfig.PortsPass | src/milvus/__init__.py:152-153 | the pass on an emptied listen_ports binds only keys that name items |
| MilvusConfig.SetSpec | src/milvus/__init__.py:257-262 | a known key with a value of its declared type is updated; a known key with a wrong-typed value changes nothing (it does not go to the extras); an unknown key goes to extra_configs; nothing else changes and types are kept |
| MilvusConfig.StorageSteps | src/milvus/__init__.py:243-249 | the five set calls keep the item keys, their order and their types |
| MilvusConfig.StorageKeysDistinct | src/milvus/__init__.py:243-249 | the five settings name five different keys |
| MilvusConfig.StorageStepsOther | src/milvus/__init__.py:243-249 | a key none of the five names keeps its item and its extra entry |
| MilvusConfig.StorageResolved | src/milvus/__init__.py:229-249 | after `resolve_storage` each of the five directory settings is in place: in its str item, among the extras for an unknown key, or unchanged for a non-str item |
| MilvusConfig.FirstUnresolved | src/milvus/__init__.py:155-157 | the first item still None from position i on, or the number of items when there is none |
| MilvusConfig.RenderAtPlaceholder | src/milvus/__init__.py:274-277 | substitution puts the value text exactly where the placeholder was when its first character occurs nowhere else |
| MilvusConfig.LeadingSpaces | src/milvus/__init__.py:290 | the leading run of spaces of the key group |
| MilvusConfig.WordRun | src/milvus/__init__.py:290 | the run of `[a-zA-Z0-9_]` characters of the key group |
| MilvusConfig.FirstHash | src/milvus/__init__.py:290 | the first '#', where the `[^#]*` group ends |
| MilvusConfig.MatchKeyLine | src/milvus/__init__.py:289-296 | a match has a non-empty word-character key after its indent, and a comment that is empty or starts with '#' |
| MilvusConfig.KeyLineRecognised | src/milvus/__init__.py:289-297 | a line of n spaces, a w-character key, ':' and a value without '#' is recognised with that indent and key and no comment |
| MilvusConfig.RewriteAll | src/milvus/__init__.py:285-307 | one output line per input line |
| MilvusConfig.RewriteAllAt | src/milvus/__init__.py:285-307 | output line i is line i rewritten under the key stack the lines before it built |
| MilvusConfig.LinesKeptUnlessKeyed | src/milvus/__init__.py:286-293 | comment lines and lines that are not `key: value` lines are copied unchanged and leave the key stack alone |
| MilvusConfig.KeyLineRewritten | src/milvus/__init__.py:294-306 | the dotted path is the key stack cut to indent // 2 plus the key; the line becomes `key: value`, keeping its comment, exactly when that path is an extra key |
| MilvusConfig.NoExtrasKeepsLines | src/milvus/__init__.py:301-306 | with no extra configs every line is copied |
| MilvusConfig.NoExtrasKeepsContent | src/milvus/__init__.py:282-308 | with no extra configs, text written one line per "\n" comes back unchanged |
| MilvusConfig.PrependPathToEnvs | src/milvus/__init__.py:354-356 | every other variable is kept |
| MilvusConfig.PrependedPathKeepsOld | src/milvus/__init__.py:354-356 | the variable becomes the directory, ':', then the value the process environment had (empty when unset) |
| MilvusConfig.MilvusServerConfig.constructor | src/milvus/__init__.py:84-92 | the fields as `__init__` sets them before parsing: every table empty |
| MilvusConfig.MilvusServerConfig.New | src/milvus/__init__.py:76-95 | `__init__`: the template parsed from empty tables (ParseTemplateSpec), the exception parsing raised, listen_ports empty |
| MilvusConfig.MilvusServerConfig.ParseTemplate | src/milvus/__init__.py:110-144 | the tables become what ParseTemplateSpec gives on the template; nothing else changes |
| MilvusConfig.MilvusServerConfig.ParseLines | src/milvus/__init__.py:125-143 | the loop's tables and exception equal RecordAll over the lines' results |
| MilvusConfig.MilvusServerConfig.Set | src/milvus/__init__.py:257-262 | the items and the extras become SetSpec of the old ones; nothing else changes |
| MilvusConfig.MilvusServerConfig.ResolvePort | src/milvus/__init__.py:163-173 | the port is FirstFree from port_start, skipping the ports listen_ports holds |
| MilvusConfig.MilvusServerConfig.ScanPorts | src/milvus/__init__.py:167-173 | the loop answers FirstFree over the given used ports |
| MilvusConfig.MilvusServerConfig.CleanupListenPorts | src/milvus/__init__.py:264-268 | listen_ports is emptied; nothing else changes |
| MilvusConfig.MilvusServerConfig.ResolveAllListenPorts | src/milvus/__init__.py:175-191 | listen_ports and the exception are those of BindKeys over the `_port` keys; the items take their ports only when no exception was raised |
| MilvusConfig.MilvusServerConfig.BindAllPorts | src/milvus/__init__.py:176-189 | the first loop: listen_ports and the exception equal BindKeys over the `_port` keys |
| MilvusConfig.MilvusServerConfig.BindAll | src/milvus/__init__.py:177-189 | the loop's result equals BindKeys on the given keys |
| MilvusConfig.MilvusServerConfig.BindOne | src/milvus/__init__.py:178-187 | one key's port or exception equals BindKey |
| MilvusConfig.MilvusServerConfig.WriteBackPorts | src/milvus/__init__.py:190-191 | the items become WriteBack of every listen_ports entry |
| MilvusConfig.MilvusServerConfig.WriteBackAll | src/milvus/__init__.py:190-191 | the loop's items equal WriteBack over all entries |
| MilvusConfig.MilvusServerConfig.ResolveStorage | src/milvus/__init__.py:229-249 | base_data_dir is the data directory and the items and extras are StorageSteps of the old ones over all five settings |
| MilvusConfig.MilvusServerConfig.FindUnresolved | src/milvus/__init__.py:155-157 | the loop answers FirstUnresolved from 0 |
| MilvusConfig.MilvusServerConfig.Resolve | src/milvus/__init__.py:151-161 | a failed port pass raises and leaves the items; otherwise the ports are written back and the storage set; the first item still None raises RuntimeError naming it; else listen_ports is emptied and the config file holds the rendered template with the extras applied |
| MilvusConfig.MilvusServerConfig.UpdateExtraConfigs | src/milvus/__init__.py:282-308 | the result equals UpdateExtraSpec on the content |
| MilvusConfig.MilvusServerConfig.RewriteOne | src/milvus/__init__.py:286-307 | one loop turn equals RewriteLine |
| MilvusConfig.MilvusServerConfig.RewriteKeyLine | src/milvus/__init__.py:301-306 | the line becomes `key: value` (comment kept) when the path is an extra key, else stays |
| MilvusConfig.MilvusServerConfig.Render | src/milvus/__init__.py:273-277 | the loop's content equals Rendered over every recorded placeholder |
| MilvusConfig.MilvusServerConfig.WriteConfig | src/milvus/__init__.py:270-280 | writes `<base>/configs/milvus.yaml` with the rendered template and the extras applied |
| PyPath.Components | python/src/milvus_lite/server.py:50 | the kept pieces are never more than the pieces, and each is a proper component |
| PyPath.Parse | python/src/milvus_lite/server.py:50 | `Path(s).absolute()` of a well-formed working directory is well formed |
| PyPath.ParseOfStr | python/src/milvus/server_manager.py:17-20 | the text of a well-formed path parses back to that path, whatever the working directory, so the key `str(path)` names the same db file |
| PyPath.StrInjective | python/src/milvus/server_manager.py:17-20 | two well-formed paths with the same text are the same path |
| PyPath.StrDistinct | python/src/milvus/server_manager.py:17-20 | different well-formed paths have different texts |
| PyPath.ParentAndName | python/src/milvus_lite/server.py:55-59 | a path with a name is its parent with that name below it |
| Supervisor.InitOk | python/src/milvus/server.py:36-42 | `init()` answers False exactly when the bin directory is missing; a missing work dir is only logged and changes nothing |
| Supervisor.NameMatchAsWrittenIff | python/src/milvus_lite/server.py:51-52 | `re.match(r'^[a-zA-Z0-9.\-_]+$', name)` as written accepts exactly the intended names and the intended names followed by one newline |
| Supervisor.NewlineNameAccepted | python/src/milvus/server.py:27-28 | "a.db\n" passes the pattern as written although it is not a name of name characters |
| Supervisor.NameOkIsComponent | python/src/milvus_lite/server.py:51-52 | an accepted name other than "." is a single path component |
| Supervisor.HiddenSiblingWellFormed | python/src/milvus_lite/server.py:59 | `parent / '.<name><suffix>'` of a well-formed db file is well formed and has the db file's parent |
| Supervisor.HiddenSiblingInjective | python/src/milvus/server.py:32-33 | different db files never share the text of a hidden sibling with the same suffix |
| Supervisor.HiddenSiblingsDiffer | python/src/milvus/server.py:32-33 | hidden siblings of one db file with different suffixes of one length have different texts |
| LiteServer.NewLayout | python/src/milvus_lite/server.py:37-60 | succeeds exactly for a name of one or more name characters (the corrected rule NameOk, which refuses a trailing newline) of at most 36 characters; the name error is raised before the length error; db file, work dir, lock path `<parent>/.<name>.lock`, socket `<tmp>_<name>.sock` and address are fixed as the source does |
| LiteServer.LockPathsDistinct | python/src/milvus_lite/server.py:59 | two servers over different db files never share a lock file |
| LiteServer.Args | python/src/milvus_lite/server.py:82-86 | four arguments [bin, db, address, level] with an address, otherwise five [bin, db, unix:socket, level, lock path] |
| LiteServer.StartEnv | python/src/milvus_lite/server.py:93-102 | LD_LIBRARY_PATH and DYLD_LIBRARY_PATH are `bin:` + the caller's LD_LIBRARY_PATH; every other variable of the caller passes through unchanged, and the caller's own values of those two never override |
| LiteServer.StartSpec | python/src/milvus_lite/server.py:88-117 | raises the assertion exactly when a child is recorded and then changes nothing; otherwise the lock file is opened, a child is spawned exactly when the lock is free, and the answer is True exactly when the lock is free and the child survives the 0.5 s wait; the child gets Args, StartEnv and the work dir |
| LiteServer.StopSpec | python/src/milvus_lite/server.py:119-141 | ends idle with both unlinks last; unlocks exactly when a lock file is open, waits exactly when a child is recorded, kills exactly when it outlives the wait, never terminates |
| LiteServer.StopIdempotent | python/src/milvus_lite/server.py:119-144 | a second stop only repeats the two (ignored) unlinks and leaves the server idle |
| LiteServer.StopUnlocksBeforeWaiting | python/src/milvus_lite/server.py:120-131 | with both a lock and a child, the lock is released and closed before the child is waited for |
| LiteServer.RestartNeedsStop | python/src/milvus_lite/server.py:88-89 | a stopped server can be started again; a successful start followed by another start raises "Server already started" |
| LiteServer.Server.constructor | python/src/milvus_lite/server.py:55-60 | the server holds its layout and starts idle (no child, no lock file) |
| LiteServer.Server.New | python/src/milvus_lite/server.py:37-60 | the RuntimeError NewLayout gives, or a fresh idle server with NewLayout's layout |
| LiteServer.Server.Start | python/src/milvus_lite/server.py:88-117 | the answer and the new `_p`/`_lock_fd` are those of StartSpec on the old state |
| LiteServer.Server.Stop | python/src/milvus_lite/server.py:119-141 | the effects and the new state are those of StopSpec on the old state |
| LegacyServer.NewLayout | python/src/milvus/server.py:21-34 | succeeds exactly for a name of one or more name characters (the corrected rule NameOk, which refuses a trailing newline), with no length limit; the socket is `<parent>/.<name>.sock`, the lock `<parent>/.<name>.lock`, and the argument override is kept |
| LegacyServer.SocketIsNotLock | python/src/milvus/server.py:32-33 | a server's socket and lock file are different files |
| LegacyServer.SidePathsDistinct | python/src/milvus/server.py:32-33 | servers over different db files share neither a socket nor a lock file |
| LegacyServer.Args | python/src/milvus/server.py:56-60 | an explicit argument list verbatim, otherwise the five [bin, db, unix:socket, level, lock path] |
| LegacyServer.StartEnv | python/src/milvus/server.py:67-71 | the child's whole environment is LD_LIBRARY_PATH = the bin directory |
| LegacyServer.StartSpecMeaning | python/src/milvus/server.py:62-75 | raises exactly when a child is recorded and then changes nothing; otherwise opens the lock file and answers True, with a spawned child, exactly when the lock is free; there is no exit check |
| LegacyServer.StopSpec | python/src/milvus/server.py:77-92 | `stop` always ends idle, and its last two steps unlink the two side files |
| LegacyServer.StopSpecMeaning | python/src/milvus/server.py:77-92 | ends idle with both unlinks last; unlocks exactly when a lock file is open, terminates exactly when a child is recorded, kills exactly when it outlives the first wait |
| LegacyServer.StopIdempotent | python/src/milvus/server.py:77-92 | a second stop only repeats the two (ignored) unlinks and leaves the server idle |
| LegacyServer.StopTerminatesBeforeUnlocking | python/src/milvus/server.py:78-90 | with both a child and a lock, terminate and wait come first and the unlock comes after every wait: the reverse of the other Server's order |
| LegacyServer.Server.constructor | python/src/milvus/server.py:29-34 | the server holds its layout and starts idle |
| LegacyServer.Server.New | python/src/milvus/server.py:21-34 | the RuntimeError NewLayout gives, or a fresh idle server with NewLayout's layout |
| LegacyServer.Server.Start | python/src/milvus/server.py:62-75 | the answer and the new state are those of StartSpec on the old state |
| LegacyServer.Server.Stop | python/src/milvus/server.py:77-92 | the effects and the new state are those of StopSpec on the old state |
| ServerManager.RegisterKeepsRegistry | python/src/milvus/server_manager.py:23-24 | registering a new server under its own db file's text keeps every server registered once, under its own key |
| ServerManager.ForgetKeepsRegistry | python/src/milvus/server_manager.py:35 | deleting a registered entry keeps the registry proper |
| ServerManager.Values | python/src/milvus/server_manager.py:39 | `values()`: one server per key in insertion order, each one once |
| ServerManager.Manager.constructor | python/src/milvus/server_manager.py:12-14 | an empty, proper registry |
| ServerManager.Manager.StartAndGetUri | python/src/milvus/server_manager.py:16-27 | a registered canonical path answers its server's `uds_path` and changes nothing; a bad name propagates its RuntimeError; an `init` failure answers None and registers nothing; otherwise a fresh server is registered under the canonical path, started, and the answer is its `uds_path` exactly when the start succeeded |
| ServerManager.Manager.RegisterAndStart | python/src/milvus/server_manager.py:23-27 | the server is registered before it is started, so it stays registered whatever the start answers |
| ServerManager.Manager.ReleaseServer | python/src/milvus/server_manager.py:29-36 | an unknown path changes nothing; a known one is stopped (its steps are StopSpec's), left idle and deleted, and every other server is untouched |
| ServerManager.Manager.ReleaseAll | python/src/milvus/server_manager.py:38-40 | every registered server is stopped in insertion order and left idle, and the registry itself is not cleared |
| ServerManager.Manager.StopEach | python/src/milvus/server_manager.py:39-40 | the loop stops server j with its own exit outcome and leaves each of them idle |
| ServerManager.RepeatAfterFailedStart | python/src/milvus/server_manager.py:19-27 | a start that fails answers None but keeps the entry, so asking again for the same path answers that server's `uds_path` |
| PlanUtils.CanArithmeticDtypeSpec | src/parser/utils.h:164-212 | `canArithmeticDtype` holds exactly when each side is arithmetic (Int8/16/32/64, Float, Double) or JSON but not both JSON; it is symmetric |
| PlanUtils.CalDataType | src/parser/utils.h:214-260 | a type exists exactly for arithmetic-or-JSON pairs; JSON only for JSON x JSON; int x int gives Int64; Float/Double x arithmetic gives Double; JSON x Float/Double gives Float; JSON x int gives Int64 |
| PlanUtils.CanArithmeticGivesType | src/parser/utils.h:197-260 | once `canArithmeticDtype` passed, `calDataType` cannot throw and never answers JSON |
| PlanUtils.CalDataTypeJSONAsymmetry | src/parser/utils.h:224-259 | JSON on the left of a Double gives Float, on the right gives Double |
| PlanUtils.CalDataTypeOf | src/parser/utils.h:214-223 | `calDataType` on expressions is `calDataType` on their element-resolved types |
| PlanUtils.CanBeComparedDataTypeSpec | src/parser/utils.h:459-490 | JSON on the left accepts anything; Bool pairs only with Bool/JSON, VarChar/String only with strings/JSON, numbers only with numbers/JSON; other kinds never; symmetric between comparable kinds |
| PlanUtils.CanBeComparedSymmetric | src/parser/utils.h:492-510 | the corrected `canBeCompared` compares the resolved types, so it is symmetric between comparable kinds |
| PlanUtils.CanBeComparedAsWrittenIsOneSided | src/parser/utils.h:505-509 | as written, an Int64 column against an element of an Int64 array is refused while the mirror image is accepted; corrected, both are accepted |
| PlanUtils.CastValue | src/parser/utils.h:541-579 | JSON takes any constant; an int64 becomes a float for Float/Double; an integer column takes only int64 and a float column only int64 or float; otherwise a matching constant is copied unchanged and a mismatch throws |
| PlanUtils.CastValueIdempotent | src/parser/utils.h:541-579 | casting what a cast produced changes nothing |
| PlanUtils.ReverseOrderAsWritten | src/parser/utils.h:772-790 | comparisons map to comparisons and anything else to Invalid |
| PlanUtils.ReverseOrder | src/parser/utils.h:772-790 | corrected: comparisons map to comparisons and anything else to Invalid |
| PlanUtils.ReverseOrderInvolution | src/parser/utils.h:772-790 | both reversals are involutions on the six comparisons |
| PlanUtils.ReverseOrderSwapsOperands | src/parser/utils.h:772-808 | the corrected reversal keeps the meaning: `c op x` holds exactly when `x ReverseOrder(op) c` does |
| PlanUtils.ReverseOrderAsWrittenNegatesEquality | src/parser/utils.h:780-783 | as written, `1 == x` becomes `x != 1`, so the filter keeps exactly the rows it should drop |
| PlanUtils.HasWildcards | src/parser/utils.h:407-421 | true exactly when the pattern holds an unescaped `%` or `_` |
| PlanUtils.LastNotWildcard | src/parser/utils.h:423-436 | the last index that does not hold an unescaped wildcard (every index after it does), or -1 |
| PlanUtils.FindLastNotOfWildcards | src/parser/utils.h:423-436 | the loop answers LastNotWildcard |
| PlanUtils.LastNotWildcardUnique | src/parser/utils.h:423-436 | the two conditions of LastNotWildcard fix the index |
| PlanUtils.PrefixUnescaped | src/parser/utils.h:438-457 | a wildcard is unescaped in the prefix up to loc exactly when it is unescaped in the whole pattern |
| PlanUtils.TranslatePatternMatchAsWritten | src/parser/utils.h:438-457 | no unescaped wildcard gives Equal(pattern); only trailing ones give PrefixMatch(prefix); others give Match(pattern); a pattern of only wildcards, where the size_t `loc` wraps, gives Equal(pattern) |
| PlanUtils.TranslatePatternMatch | src/parser/utils.h:438-457 | corrected: the same cases, with a pattern of only wildcards a prefix match on "" |
| PlanUtils.PercentPatternCounterexample | src/parser/utils.h:438-445 | "%" has no non-wildcard index and is translated to PrefixMatch("") by the corrected function |
| PlanUtils.HelperPrefixStaysNone | src/parser/utils.h:342-358 | once the helper has thrown, later fields do not bring it back |
| PlanUtils.HelperPrefixTables | src/parser/utils.h:342-358 | the helper's name, id, primary-key and partition-key tables index the fields it registered, and it points at the whole schema |
| PlanUtils.RejectPair | src/parser/utils.h:344-356 | a repeated name, a second primary key, or a partition key after a primary key among the fields refuses the schema |
| PlanUtils.AcceptsStep | src/parser/utils.h:342-358 | a field that clears the three checks extends an accepted prefix |
| PlanUtils.HelperPrefixAccepts | src/parser/utils.h:337-359 | `CreateSchemaHelper` succeeds exactly on the schemas HelperAccepts describes |
| PlanUtils.CreateSchemaHelper | src/parser/utils.h:337-359 | the loop returns HelperPrefix over all fields; it succeeds exactly under HelperAccepts and then indexes every field by name and id |
| PlanUtils.BuildHelperTables | src/parser/utils.h:342-358 | the corrected helper indexes the fields the same way |
| PlanUtils.FixedRejectPair | src/parser/utils.h:344-356 | corrected: a repeated name, a second primary key or a second partition key refuses the schema |
| PlanUtils.BuildHelperAccepts | src/parser/utils.h:337-359 | the corrected helper exists exactly for the schemas FixedAccepts describes |
| PlanUtils.PartitionAfterPrimaryCounterexample | src/parser/utils.h:352-355 | a primary key followed by a partition key is refused as written and accepted by the corrected check |
| PlanUtils.DefaultJSONFieldFrom | src/parser/utils.h:300-311 | the first dynamic JSON field from position i on, or None when none exists |
| PlanUtils.GetDefaultJSONField | src/parser/utils.h:300-311 | the loop answers the first dynamic JSON field, or None when none exists |
| PlanUtils.GetFieldFromNameDefaultJSON | src/parser/utils.h:291-298 | a registered name gives its field; otherwise the dynamic JSON field, or None only when there is none |
| PlanUtils.CmpOp | src/parser/utils.h:792-800 | exactly the six comparison tokens map to comparisons |
| PlanUtils.HandleCompareRightValue | src/parser/utils.h:702-745 | a result needs the constant to cast to the column's type (the element type when a path indexes an array), and a column gives a unary range with the operator on that column; anything but a column or an arithmetic expression is refused |
| PlanUtils.HandleCompare | src/parser/utils.h:792-815 | refused unless the corrected `canBeCompared` holds; a constant on the left moves right with the operator reversed by the corrected ReverseOrder (== and != stay as they are); a constant on the right is used as is; two columns give a column comparison; its partner lemma is HandleCompareMirror |
| PlanUtils.HandleCompareMirror | src/parser/utils.h:792-815 | with the corrected reversal, `c op col` and `col flipped(op) c` build the same expression |
| PlanVisitor.ExtractValue | src/parser/utils.h:68-85 | a non-value expression extracts to the null value; an integer comes out exactly for an int64 literal and a double exactly for a float literal |
| PlanVisitor.StoredValue | src/parser/utils.h:68-85 | writing an extracted value back into a GenericValue leaves it unset exactly for the null value |
| PlanVisitor.ExtractStoreRoundTrip | src/parser/utils.h:68-85 | extracting a bool, float, string or int64 literal and storing it again gives back the same literal |
| PlanVisitor.VisitLogicalAnd | src/parser/parser.h:177-217 | `and` succeeds exactly on two bool constants (folded to a constant) or two bool-typed operands (an AND node); the result is a non-dependent Bool |
| PlanVisitor.VisitLogicalOr | src/parser/parser.h:137-175 | `or` succeeds exactly on two bool constants (folded to a constant) or two bool-typed operands (an OR node); the result is a non-dependent Bool |
| PlanVisitor.LogicalFoldSound | src/parser/parser.h:137-217 | folding `and`/`or` over constants evaluates to the same truth value as the unfolded node |
| PlanVisitor.TruncatingDivision | src/parser/parser.h:307-339 | the C++ truncating `/` and `%` the int constant fold uses satisfy q*b + r == a with \|r\| < \|b\| |
| PlanVisitor.FoldConstants | src/parser/parser.h:282-388 | a fold happens exactly when both operands are int64 or double constants; it gives a non-dependent Int64 constant exactly for two int64s and a Double constant otherwise; `*` never throws, `%` involving a double never folds, and `/` throws only on a zero divisor |
| PlanVisitor.VisitMulDivModWith | src/parser/parser.h:273-465 | when no constant fold applies, a success needs two arithmetic operand types and builds a BinaryArith node of the common type; every result is non-dependent and arithmetic |
| PlanVisitor.IntConstantsFold | src/parser/parser.h:307-339 | two int constants fold to their product, truncated quotient or truncated remainder, computed without int64 wrap-around |
| PlanVisitor.MulDivModFoldSound | src/parser/parser.h:273-465 | every `*`, `/`, `%` result (folded or not) evaluates to the same number as the unfolded arithmetic node |
| PlanVisitor.IntByDoubleFoldCounterexample | src/parser/parser.h:376-383 | as written, int 1 / double 2.0 folds to 2.0 while the division is 0.5; the corrected visitor folds to 0.5 |
| PlanVisitor.ArithmeticNeedsNumbers | src/parser/parser.h:389-434 | a JSON or array column operand (not a constant) makes `*`, `/`, `%` fail |
| PlanVisitor.ColumnOf | src/parser/parser.h:651-660 | a column info carries the field's id, data type and the given nested path |
| PlanVisitor.IdentifierColumn | src/parser/parser.h:467-499 | a declared non-JSON field gives its own column and a declared JSON field is refused; an undeclared name becomes a key of the dynamic JSON field, and fails only when no dynamic field exists or it shares the name |
| PlanVisitor.VisitIdentifier | src/parser/parser.h:467-499 | an identifier succeeds exactly when its column resolves, and gives a column expression of that column's type |
| PlanVisitor.UnknownNameIsDynamicKey | src/parser/parser.h:467-499 | with a dynamic field of another name, an unknown name is the JSON column of that field with the name as its only path key |
| PlanVisitor.StripSegment | src/parser/parser.h:677-691 | a bracket segment strips to a non-empty key no longer than the segment, or fails |
| PlanVisitor.StripQuoted | src/parser/parser.h:686-690 | a quoted key in brackets strips to the key without its quotes |
| PlanVisitor.StripFrom | src/parser/parser.h:676-692 | stripping all segments keeps the path so far, appends one key per segment in order, and fails exactly when some segment fails |
| PlanVisitor.ChildColumnInfo | src/parser/parser.h:636-709 | with an identifier it is the identifier's column; a bracketed path succeeds only on a JSON or Array field |
| PlanVisitor.GetChildColumnInfo | src/parser/parser.h:636-709 | the loop over the bracket segments computes the same column as ChildColumnInfo |
| PlanVisitor.BracketedPathRoundTrip | src/parser/parser.h:664-692 | `name[k1][k2]...` on a declared JSON or Array field parses back to that field with exactly the keys k1, k2, ... |
| PlanVisitor.ChildOfRegisteredField | src/parser/parser.h:664-708 | a bracketed path on a declared JSON or Array field gives that field with the stripped keys as its path |
| PlanVisitor.RangeOver | src/parser/parser.h:1165-1254 | a range succeeds exactly on a resolved column of a comparable scalar type and builds a BinaryRange over the two stored bounds |
| PlanVisitor.RangeBounds | src/parser/parser.h:1171-1187 | `a < x < b` takes its lower bound from the first operand and its upper from the second, each inclusive exactly for `<=` |
| PlanVisitor.ReverseRangeMirrorsRange | src/parser/parser.h:712-801 | corrected: `b > x > a` builds the same range as `a < x < b` with the operators mirrored |
| PlanVisitor.ReverseRangeCounterexample | src/parser/parser.h:718-734 | as written, `10 > x >= 5` makes 10 inclusive and 5 exclusive; the corrected visitor makes 5 inclusive and 10 exclusive |
| PlanVisitor.TermValue | src/parser/parser.h:1057-1124 | a term element gives a value exactly when it is a constant, and that value is the stored constant |
| PlanVisitor.VisitTerm | src/parser/parser.h:1046-1127 | `x in [...]` succeeds exactly on a column with all-constant elements, and builds a Term of those values, negated for `not in` |
| PlanVisitor.SharedKindSpec | src/parser/parser.h:1317-1416 | an array's element type is t exactly when every typed element has type t and at least one has |
| PlanVisitor.VisitArrayAsWritten | src/parser/parser.h:1317-1416 | the visitor as written: values only for numeric elements, element type over numeric elements only, always dependent |
| PlanVisitor.VisitArray | src/parser/parser.h:1317-1416 | corrected: the array literal holds one value per element and its type is the one all typed elements share, None when they differ |
| PlanVisitor.ArrayMixedCounterexample | src/parser/parser.h:1330-1399 | as written, `[1, "a"]` is typed Int64 with the string dropped; the corrected visitor types it None |
| SchemaUtil.DataTypeToVectorType | src/schema_util.cpp:238-253 | defined exactly on the five vector types; FloatVector and SparseFloatVector map to their own plan types |
| SchemaUtil.DataTypeToVectorTypeInjective | src/schema_util.cpp:238-253 | different vector types never map to the same plan vector type |
| SchemaUtil.FirstValue | src/schema_util.cpp:115-131 | the value of the first pair with the key, None exactly when no pair has it |
| SchemaUtil.KVMapOf | src/schema_util.cpp:670-673 | the map built with `map[key] = value` holds exactly the keys of the list |
| SchemaUtil.KVMapOfLast | src/schema_util.cpp:670-673 | for each key the map holds the value of the last pair with that key |
| SchemaUtil.CheckParamsEqualReflexive | src/schema_util.cpp:664-683 | a parameter list with distinct keys is equal to itself |
| SchemaUtil.CheckParamsEqualDuplicateKey | src/schema_util.cpp:664-683 | a list with one key given two values is not equal to itself, since the map keeps only the last value |
| SchemaUtil.CheckParamsEqualSizes | src/schema_util.cpp:664-683 | equal parameter lists have the same size and every left key occurs on the right |
| SchemaUtil.FindDimFromFieldParams | src/schema_util.cpp:114-131 | the first "dim" among the type params, else the first among the index params, None exactly when neither has one |
| SchemaUtil.GetDim | src/schema_util.cpp:133-156 | -1 for a non-vector or sparse field and for a missing dim; otherwise the value std::stoll parses from the dim text, and -1 exactly when it parses none |
| SchemaUtil.GetDimOfPrinted | src/schema_util.cpp:133-156 | a dense vector field declared with `dim = to_string(n)` has dimension n |
| SchemaUtil.FirstPkIndex | src/schema_util.cpp:326-334 | the position of the first primary-key field, None exactly when there is none |
| SchemaUtil.GetPkId | src/schema_util.cpp:326-334 | the id of the first primary-key field, None exactly when no field is a primary key |
| SchemaUtil.GetPkName | src/schema_util.cpp:336-344 | the name of the first primary-key field, None exactly when no field is a primary key |
| SchemaUtil.PkIdAndNameAgree | src/schema_util.cpp:326-344 | GetPkId and GetPkName succeed together, and name the same field |
| SchemaUtil.LastVectorNamed | src/schema_util.cpp:259-264 | the vec_fields map entry for a name: a vector field of that name, None exactly when no vector field has it |
| SchemaUtil.FirstVector | src/schema_util.cpp:259-264 | some vector field of the schema, None exactly when there is none |
| SchemaUtil.FindVectorField | src/schema_util.cpp:255-292 | succeeds exactly when there is a vector field and either one vector name with no anns_field or the named one exists; the result is a vector field of the schema with the requested name; failures are ParameterInvalid |
| SchemaUtil.FindVectorFieldSingle | src/schema_util.cpp:255-292 | with a single vector field, naming it and naming nothing find that same field |
| SchemaUtil.GetIndexMetricType | src/schema_util.cpp:304-324 | the first metric_type in the type params, then the index params, then the user index params; "" when none has one |
| SchemaUtil.RowCells | src/schema_util.cpp:33-99 | a float vector row is dim floats; a scalar row is the single cell at that position |
| SchemaUtil.PickFieldDataByIndex | src/schema_util.cpp:346-459 | succeeds exactly on an empty index list or a known column type, and then appends the picked rows in index order (taking the source dim, sparse dim and element type); on failure dst is unchanged |
| SchemaUtil.PickedAppend | src/schema_util.cpp:346-459 | picking a + b appends the rows of b after those of a |
| SchemaUtil.PickedAllRows | src/schema_util.cpp:346-459 | picking rows 0..n-1 of a column of n rows copies its whole payload |
| SchemaUtil.SliceIndexesMembership | src/schema_util.cpp:460-473 | an index is sliced exactly when it lies in [offset, offset+limit) of some range |
| SchemaUtil.SliceIndexesLength | src/schema_util.cpp:460-473 | the slice index list is as long as the ranges' total size |
| SchemaUtil.SliceFieldData | src/schema_util.cpp:460-473 | picks exactly the concatenation of [offset, offset+limit) over the ranges, in order |
| SchemaUtil.IdKeys | src/schema_util.cpp:582-597 | int ids are keyed by their decimal text, string ids by themselves, no ids by nothing |
| SchemaUtil.FirstOccurrences | src/schema_util.cpp:582-597 | the kept positions all lie within the id list |
| SchemaUtil.FirstOccurrencesSpec | src/schema_util.cpp:582-597 | every kept position holds an id not seen before it, and the positions increase |
| SchemaUtil.FirstOccurrencesDistinct | src/schema_util.cpp:582-597 | the kept positions hold pairwise different ids |
| SchemaUtil.FirstOccurrencesCover | src/schema_util.cpp:582-597 | every id in the list is kept at its first position or earlier |
| SchemaUtil.FirstOccurrencesCount | src/schema_util.cpp:582-602 | as many positions are kept as there are distinct ids |
| SchemaUtil.IntKeysFaithful | src/schema_util.cpp:584 | two int ids have the same decimal key exactly when they are equal |
| SchemaUtil.IntIdPositions | src/schema_util.cpp:582-589 | the int-id loop yields the set of distinct keys and the first-occurrence positions, of equal size |
| SchemaUtil.StrIdPositions | src/schema_util.cpp:590-597 | the string-id loop yields the set of distinct ids and the first-occurrence positions, of equal size |
| SchemaUtil.ReduceFieldByIDs | src/schema_util.cpp:571-604 | copies the header; with no ids succeeds and keeps real_size; otherwise real_size is the number of distinct ids and the rows kept are the first occurrence of each id, in order |
| SchemaUtil.AllAcceptedSpec | src/schema_util.cpp:509-537 | the request is accepted exactly when no name is rejected (neither "*", nor a user field, nor servable by a dynamic field) |
| SchemaUtil.ScanSchemaFields | src/schema_util.cpp:500-507 | pk_name is the last primary-key name and all_fields the sorted set of user field names (id >= 100) |
| SchemaUtil.CollectRequested | src/schema_util.cpp:509-537 | fails exactly on a rejected name; otherwise both sets are sorted and hold exactly what the names request |
| SchemaUtil.CollectBm25Outputs | src/schema_util.cpp:539-546 | the sorted set of output names of the BM25 functions |
| SchemaUtil.TranslateOutputFields | src/schema_util.cpp:484-569 | fails exactly on a rejected name, leaving both outputs as they were; otherwise appends, sorted, exactly the requested fields plus the pk when asked for, less every BM25 output |
| SchemaUtil.StarSelectsAllUserFields | src/schema_util.cpp:511-515 | "*" selects every user field that is not a BM25 output |
| SchemaUtil.DynamicNameGoesToMeta | src/schema_util.cpp:521-530 | with a dynamic field, an unknown plain identifier asks for "$meta" and is itself a user output |
| SchemaUtil.AddPrimaryAddsPk | src/schema_util.cpp:549-552 | add_primary puts the pk among the outputs unless a BM25 function writes it |
| SchemaUtil.UnknownNameFails | src/schema_util.cpp:531-534 | without a dynamic field, a name that is neither "*" nor a user field fails the request |
| SchemaUtil.NameIds | src/schema_util.cpp:767-770 | the name-to-id map holds exactly the schema's field names |
| SchemaUtil.GetOutputFieldsIds | src/schema_util.cpp:763-781 | succeeds exactly when every name is a field; appends the ids in name order, stopping at the first unknown name |
| SchemaUtil.SchemaEqualsReflexive | src/schema_util.cpp:621-661 | a schema whose parameter lists have distinct keys equals itself |
| SchemaUtil.SchemaEqualsDetectsChange | src/schema_util.cpp:621-661 | schemas that differ in name, or in the data type of one field, are not equal |
| SchemaUtil.FillEmptyField | src/schema_util.cpp:158-225 | the column takes the field's name, type, id and dynamic flag with no rows; it fails exactly on an unknown type or a dense vector without a valid dim, and a dense vector takes GetDim |
| SchemaUtil.ParseExpr | src/schema_util.cpp:606-619 | Ok exactly when the parser accepts the text, otherwise ParameterInvalid "Invalid expr: <text>" |
| CreateCollection.CheckFieldName | src/create_collection_task.cpp:395-428 | Ok exactly when the trimmed name is 1 to 255 characters matching [a-zA-Z_][a-zA-Z0-9_]*; otherwise ParameterInvalid |
| CreateCollection.CheckFieldNameIgnoresPadding | src/create_collection_task.cpp:397 | surrounding white space around a valid name is accepted, because the check runs on the trimmed name |
| CreateCollection.MetaNameRejected | src/create_collection_task.cpp:410-417 | "$meta" fails the name rule |
| CreateCollection.SystemNamesPassNameRule | src/create_collection_task.cpp:395-428 | "RowID" and "Timestamp" pass the name rule, so only the system-field test keeps them out |
| CreateCollection.CheckMaxLength | src/create_collection_task.cpp:63-79 | succeeds exactly when std::stoll parses the text to a length in (0, 65535], giving that length; otherwise ParameterInvalid |
| CreateCollection.GetVarcharFieldMaxLength | src/create_collection_task.cpp:53-106 | succeeds only on a VarChar field or VarChar array with a max_length param, giving a length in (0, 65535]; failures are ParameterInvalid |
| CreateCollection.TypeParamsDecideMaxLength | src/create_collection_task.cpp:62-80 | the first max_length among the type params decides the result, valid or not, whatever the index params say |
| CreateCollection.CheckDefaultValue | src/create_collection_task.cpp:108-211 | true exactly when every field's default value matches its type (ints in the Int8/Int16 range, strings whose UTF-8 byte count is within max_length, no bytes, and a default_value with nothing set refused) |
| CreateCollection.Utf8Length | src/create_collection_task.cpp:189 | the UTF-8 byte count of a string lies between its character count and four times it |
| CreateCollection.Utf8LengthAppend | src/create_collection_task.cpp:189 | the byte count of a concatenation is the sum of the parts' byte counts |
| CreateCollection.Utf8LengthAscii | src/create_collection_task.cpp:189 | a string has as many bytes as characters exactly when every character is ASCII |
| CreateCollection.StringDefaultBytes | src/create_collection_task.cpp:181-207 | with max_length 5, a three-character CJK default (9 bytes) is refused, "abc" is accepted, and a default_value with nothing set is refused |

| CreateCollection.IntDefaultWidths | src/create_collection_task.cpp:108-211 | an int default is range-checked on Int8 and Int16 fields, accepted on Int32 and refused on Int64 |
| CreateCollection.HasSystemFields | src/create_collection_task.cpp:33-43 | true exactly when some field is named RowID, Timestamp or $meta |
| CreateCollection.InputError | src/create_collection_task.cpp:264-279 | no error exactly when the input field is a non-dynamic, non-nullable VarChar field |
| CreateCollection.OutputError | src/create_collection_task.cpp:280-295 | no error exactly when the output field is a non-dynamic, non-nullable SparseFloatVector field |
| CreateCollection.ValidBm25Function | src/create_collection_task.cpp:250-308 | Ok exactly when the function is BM25 with one input and one output, both found and each meeting its rule; otherwise ParameterInvalid |
| CreateCollection.Bm25InputDiffersFromOutput | src/create_collection_task.cpp:250-308 | a valid BM25 function never reads and writes the same field |
| CreateCollection.FieldError | src/create_collection_task.cpp:336-347 | no error exactly when the field is not dynamic, not nullable, has a valid name and, as VarChar, a valid max_length |
| CreateCollection.ScanFields | src/create_collection_task.cpp:318-347 | the field loop computes the scan over the fields from an empty name set and an empty pk_name |
| CreateCollection.ScanFromSpec | src/create_collection_task.cpp:318-347 | from any reachable state the scan accepts exactly when the remaining fields meet every per-field and cross-field rule |
| CreateCollection.ScanFieldsSpec | src/create_collection_task.cpp:318-347 | the scan accepts exactly the field lists with at most one primary key, distinct names when checked, and every field valid |
| CreateCollection.ScanFunctions | src/create_collection_task.cpp:350-352 | Ok exactly when every function is a valid BM25 function |
| CreateCollection.ValidateSchemaAsWritten | src/create_collection_task.cpp:310-354 | as written: Ok exactly on at most 64 fields, one primary key at most, valid fields and valid functions, whatever the names |
| CreateCollection.ValidateSchema | src/create_collection_task.cpp:310-354 | as intended: Ok exactly when the schema also has distinct field names; otherwise ParameterInvalid |
| CreateCollection.DuplicateNamesCounterexample | src/create_collection_task.cpp:318-324 | two fields named "a" pass as written and are refused as intended |
| CreateCollection.AssignFieldId | src/create_collection_task.cpp:213-219 | field i gets id 100 + i and nothing else changes |
| CreateCollection.Process | src/create_collection_task.cpp:356-393 | succeeds exactly when the schema parses, matches the collection name, validates, holds no system field and has matching defaults; the result is the completed schema ($meta when dynamic, ids from 100, RowID and Timestamp) |
| CreateCollection.CompletedNamesDistinct | src/create_collection_task.cpp:221-248 | after completion all field names are distinct |
| CreateCollection.CompletedIdsDistinct | src/create_collection_task.cpp:213-248 | after completion all field ids are distinct, and the user fields and $meta are numbered from 100 |
| IndexCheck.RunChecker | src/create_index_task.cpp:115-143 | Ok exactly when the dim is in range (when checked), the index type is supported and the metric is supported; otherwise Undefined |
| IndexCheck.Check | src/create_index_task.cpp:223-241 | Ok exactly when the field type's checker accepts index type, metric and dim; a non-vector type is ParameterInvalid, a checker's refusal Undefined |
| IndexCheck.SparseDimIgnored | src/create_index_task.cpp:207-221 | the sparse checker does not look at the dim |
| IndexCheck.JsonItemsUpTo | src/create_index_task.cpp:366-371 | merging a parsed "params" object keeps the map a valid std::map (non-string members stored dumped, strings skipped) |
| IndexCheck.RequestParamsUpTo | src/create_index_task.cpp:362-382 | the index_params built from the extra params is a valid std::map, or None when a "params" value does not parse |
| IndexCheck.RequestParamsFailureStays | src/create_index_task.cpp:372-377 | a "params" value that does not parse fails the request whatever follows |
| IndexCheck.PlainParamsLastWins | src/create_index_task.cpp:379-381 | without "params", each key maps to the value of its last pair |
| IndexCheck.AutoParams | src/create_index_task.cpp:256-275 | the map after AddAutoIndexParams is a valid std::map |
| IndexCheck.AutoIndexParamsValues | src/create_index_task.cpp:69-81 | the AUTOINDEX configuration is M=18, efConstruction=240, index_type=AUTOINDEX, metric_type=IP |
| IndexCheck.AutoParamsKeepsUserKeys | src/create_index_task.cpp:256-275 | after AddAutoIndexParams the metric is the user's (or IP), other user keys keep their values and missing keys take the AUTOINDEX values |
| IndexCheck.MetricDefault | src/create_index_task.cpp:392-407 | a missing metric_type gets the vector type's default (IP for float types and sparse, JACCARD for binary); every other key is unchanged |
| IndexCheck.Bm25Defaults | src/create_index_task.cpp:409-419 | missing bm25_k1, bm25_b and avgdl get 1.2, 0.75 and 1000; present ones and all other keys are unchanged |
| IndexCheck.AutoStep | src/create_index_task.cpp:385-390 | the auto-index step keeps the map valid |
| IndexCheck.Bm25Step | src/create_index_task.cpp:409-419 | the BM25 step keeps the map valid |
| IndexCheck.VectorDefaults | src/create_index_task.cpp:384-419 | the vector defaults keep the map valid |
| IndexCheck.ScalarDefaults | src/create_index_task.cpp:421-466 | a success is a valid map; a failure is ParameterInvalid |
| IndexCheck.Defaulted | src/create_index_task.cpp:384-466 | a success is a valid map, and a vector field always succeeds |
| IndexCheck.AutoStepIndexType | src/create_index_task.cpp:385-390 | a vector field without index_type gets AUTOINDEX; a given one is kept |
| IndexCheck.AutoStepMetric | src/create_index_task.cpp:385-390 | a given metric_type is kept; a missing one becomes IP exactly when AUTOINDEX applies |
| IndexCheck.AutoStepBm25Keys | src/create_index_task.cpp:256-275 | the auto-index step leaves the BM25 keys alone |
| IndexCheck.Bm25StepKeeps | src/create_index_task.cpp:409-419 | the BM25 step leaves index_type and metric_type alone |
| IndexCheck.VectorDefaultsIndexType | src/create_index_task.cpp:384-419 | after the vector defaults, index_type is the user's or AUTOINDEX |
| IndexCheck.ScalarDefaultsSetIndexType | src/create_index_task.cpp:421-466 | a successful scalar default always leaves an index_type |
| IndexCheck.DefaultedSetsIndexType | src/create_index_task.cpp:467-471 | after the defaults index_type is always present (so the "IndexType not specified" branch is dead), and a vector field always has a metric |
| IndexCheck.VectorMetric | src/create_index_task.cpp:384-407 | the vector metric is the user's, else IP when AUTOINDEX applies, else the type's default |
| IndexCheck.Bm25DefaultsKept | src/create_index_task.cpp:409-419 | with metric BM25 the three BM25 keys are the user's or their defaults |
| IndexCheck.ScalarRules | src/create_index_task.cpp:421-466 | VarChar and numeric fields default to Trie and STL_SORT or validate the given type, numeric types against the corrected list STL_SORT, INVERTED; Bool needs INVERTED; other scalar types fail; a given index type leaves the map unchanged |
| IndexCheck.ArithmeticListAsWritten | src/create_index_task.h:53-56 | as written, the default STL_SORT fails the numeric validation while Trie passes it; the corrected list accepts STL_SORT |
| IndexCheck.FillDimension | src/create_index_task.cpp:501-524 | a non-vector field keeps the map; a vector field needs a schema dim equal to any given dim, and then the map's dim is the schema's and nothing else changes |
| IndexCheck.Touch | src/create_index_task.cpp:285 | reading a missing key with operator[] keeps the map valid |
| IndexCheck.Train | src/create_index_task.cpp:277-336 | Ok exactly when the parameters pass CheckTrain's rules; a missing index_type, an unparsable dim or a missing metric throws; errors are ParameterInvalid or Undefined |
| IndexCheck.TrainBm25Ranges | src/create_index_task.cpp:283-318 | an accepted BM25 sparse index has numeric k1 in [0, 3] and b in [0, 1] |
| IndexCheck.TrainDimMismatch | src/create_index_task.cpp:324-328 | a dense field whose given dim differs from the schema's is ParameterInvalid |
| CreateIndex.LastFieldNamed | src/create_index_task.cpp:340-345 | the field found is one named as requested, and one is found exactly when some schema field has that name |
| CreateIndex.LastFieldWins | src/create_index_task.cpp:340-345 | with several fields of the name, the scan ends on the last of them |
| CreateIndex.FindField | src/create_index_task.cpp:340-345 | the loop over the schema's fields yields the last field with the requested name |
| CreateIndex.MergeJsonItems | src/create_index_task.cpp:366-371 | the loop over a parsed "params" object builds the same map as the specification of that merge |
| CreateIndex.ReadIndexParams | src/create_index_task.cpp:362-382 | the loop over the extra params builds the index_params map, or fails on a "params" value that does not parse |
| CreateIndex.AutoIndexed | src/create_index_task.cpp:256-275 | after AddAutoIndexParams the task is marked auto-index and its extra params gain index_type=AUTOINDEX then the effective metric |
| CreateIndex.PushedIndexParams | src/create_index_task.cpp:475-476 | the pushed index params are a valid map with neither dim nor max_length |
| CreateIndex.ParseForField | src/create_index_task.cpp:362-494 | after the field is found: the header is kept, every error is one the source returns, and a success pushes the index and type params |
| CreateIndex.ParseForParams | src/create_index_task.cpp:384-494 | with the request map read: auto-index is recorded exactly when it applies, and a success pushes the params |
| CreateIndex.ParseForDefaulted | src/create_index_task.cpp:467-494 | after the defaults: a failure changes nothing; a success only pushes the index and type params |
| CreateIndex.UnknownFieldRejected | src/create_index_task.cpp:346-351 | a field name absent from the schema is ParameterInvalid and leaves the task unchanged |
| CreateIndex.FoundFieldHeader | src/create_index_task.cpp:353-360 | the index name is the request's or else the field's, the field id is the last matching field's, and the collection id is the hash of the schema name |
| CreateIndex.ParseSuccessPushes | src/create_index_task.cpp:338-494 | a successful parse found the field and pushed its index and type params |
| CreateIndex.ParseAutoIndex | src/create_index_task.cpp:384-390 | auto-index is recorded (with AUTOINDEX and the metric in the extra params) exactly when the field is a vector without an index_type |
| CreateIndex.FreshExtraParams | src/create_index_task.cpp:243-275 | a fresh task's extra params after a successful parse are empty or exactly index_type then metric_type |
| CreateIndex.FirstPairsKeys | src/create_index_task.cpp:535-562 | deduplicating by first key keeps every key and leaves no key twice |
| CreateIndex.FirstPairsFirstValue | src/create_index_task.cpp:535-562 | deduplicating by first key keeps the first value of every key |
| CreateIndex.AppendFirstKeys | src/create_index_task.cpp:537-544 | one kset loop appends exactly the pairs whose key has not been seen, and the key set grows by the source's keys |
| CreateIndex.MetaOf | src/create_index_task.cpp:530-533 | the meta carries the task's index name, field id, collection id and auto-index flag |
| CreateIndex.MetaPrecedence | src/create_index_task.cpp:535-562 | the meta's index params hold each key once, all keys of the three lists, and the value from the index params first, then the type params, then the extra params |
| CreateIndex.MetaDimFromTypeParams | src/create_index_task.cpp:475-492 | the meta's dim and max_length come from the field's type params |
| CreateIndex.FreshMetaDim | src/create_index_task.cpp:526-566 | after a successful Process on a fresh task, the meta's dim is the field's schema dim |
| CreateIndex.ApplyBm25Defaults | src/create_index_task.cpp:409-419 | the BM25 defaults applied in place match the BM25 default step |
| CreateIndex.CreateIndexTask.constructor | src/create_index_task.h:18-25 | a new task holds the request and schema, field id and collection id 0, not auto-index, and empty param lists |
| CreateIndex.CreateIndexTask.WrapUserIndexParams | src/create_index_task.cpp:243-254 | appends index_type=AUTOINDEX and metric_type=metric to the extra params and changes nothing else |
| CreateIndex.CreateIndexTask.AddAutoIndexParams | src/create_index_task.cpp:256-275 | always answers true, rewrites the map to the auto-index parameters and records auto-index with the effective metric |
| CreateIndex.CreateIndexTask.ApplyDefaults | src/create_index_task.cpp:384-466 | the map after the defaults is the defaulting specification's, and the task changes only when auto-index applies |
| CreateIndex.CreateIndexTask.FinishParse | src/create_index_task.cpp:467-494 | the verdict and new task state are those of the last parse stage |
| CreateIndex.CreateIndexTask.PushIndexParams | src/create_index_task.cpp:478-483 | appends the params to the index params and changes nothing else |
| CreateIndex.CreateIndexTask.PushTypeParams | src/create_index_task.cpp:485-492 | appends the field's type params and changes nothing else |
| CreateIndex.CreateIndexTask.ParseIndexParams | src/create_index_task.cpp:338-494 | the verdict and new task state are those of the parse specification |
| CreateIndex.CreateIndexTask.Process | src/create_index_task.cpp:526-566 | the parse's verdict and state; on success the meta built from the state, on failure an empty meta |
| SearchTask.ReadParam | src/search_task.cpp:52-90 | reading one search param fails exactly on a topk, offset or round_decimal value std::stoll rejects |
| SearchTask.ScanStopStays | src/search_task.cpp:52-91 | once a numeric value fails to parse, the later params are never read |
| SearchTask.ScanRunsThrough | src/search_task.cpp:52-91 | the param loop completes exactly when every numeric param parses |
| SearchTask.ScanLastWins | src/search_task.cpp:52-91 | after a full scan each setting holds the value of its last param |
| SearchTask.FirstNamed | src/search_task.cpp:122-136 | the group-by search finds the first field of that name, or reports that none has it |
| SearchTask.Conclude | src/search_task.cpp:93-141 | the checks after the loop succeed exactly when the ranges hold and the group-by field exists, and then fill topk+offset, the search params, round_decimal and the group-by id |
| SearchTask.ParseInfoSpec | src/search_task.cpp:48-142 | ParseSearchInfo succeeds exactly when the numbers parse, 1 <= topk <= 16384, 0 <= offset (the corrected check), topk + offset <= 16384, round_decimal is -1 or in [0, 6] and a named group-by field exists; the info then carries topk+offset, round_decimal, search params and the group-by id (row id by default) |
| SearchTask.UnknownGroupByRejected | src/search_task.cpp:122-135 | an unknown group-by field name fails the parse |
| SearchTask.ParseInfoCorrection | src/search_task.cpp:100-112 | the corrected parse agrees with the code as written whenever it succeeds, and differs only on a negative offset |
| SearchTask.NegativeOffsetAcceptedAsWritten | src/search_task.cpp:100-105 | as written, topk 10 with offset -1 is accepted and searches 9 hits; the corrected parse rejects it |
| SearchTask.IndexMetricUpTo | src/search_task.cpp:193-202 | the index scan fails exactly when some stored index does not parse |
| SearchTask.IndexMetricNoneOfField | src/search_task.cpp:193-202 | with no index on the field the index metric is empty |
| SearchTask.IndexMetricLastWins | src/search_task.cpp:193-202 | with several indexes on the field the last one's metric is used |
| SearchTask.ResolveMetric | src/search_task.cpp:203-217 | succeeds exactly when an index metric exists and the user's metric is empty or equal to it; IndexNotFound without an index, ParameterInvalid on a mismatch |
| SearchTask.ResolveAnns | src/search_task.cpp:185-228 | the anns field id and vector type are the vector field's; an unparsable index is ServiceInternal; otherwise the metric checks decide, then the filter expression |
| SearchTask.AnnsOkIff | src/search_task.cpp:193-228 | the anns step succeeds exactly when an index metric exists, agrees with any user metric, and a given filter parses; the metric is then the index's |
| SearchTask.NoIndexNotFound | src/search_task.cpp:203-206 | a vector field without an index is IndexNotFound |
| SearchTask.ScoreCoefficient | src/search_task.cpp:241 | scores are kept for IP and COSINE (any case) and negated for every other metric |
| SearchTask.ScoreCoefficientExamples | src/search_task.cpp:241 | "ip" and "COSINE" keep the sign, "L2" flips it |
| SearchTask.StartMono | src/search_task.cpp:244-279 | the running hit index never decreases from one query to the next |
| SearchTask.Limit | src/search_task.cpp:252-254 | a query's limit is its hit count minus the offset, or 0 when that is not positive |
| SearchTask.Ranges | src/search_task.cpp:250-259 | there is one slice range per query |
| SearchTask.RangesAt | src/search_task.cpp:259 | query i's range starts at its first hit plus the offset and has the query's limit as length |
| SearchTask.MaxLimit | src/search_task.cpp:242-256 | the result top_k is never negative |
| SearchTask.MaxLimitIsMax | src/search_task.cpp:242-256 | the result top_k is the largest limit (or 0) |
| SearchTask.Limits | src/search_task.cpp:258 | one topks entry per query |
| SearchTask.LimitsAt | src/search_task.cpp:252-258 | topks entry i is query i's limit |
| SearchTask.RangesInBounds | src/search_task.cpp:259-279 | every row the ranges select is a hit of the segcore result |
| SearchTask.KeptScores | src/search_task.cpp:261-278 | there is one score per kept hit |
| SearchTask.KeptColumns | src/search_task.cpp:282-291 | there is one result column per segcore column |
| SearchTask.Zeros | src/search_task.cpp:293-295 | the short-cut result has one 0 per query |
| SearchTask.KeptIndexesAre | src/search_task.cpp:244-280 | the kept hits are exactly, for each query, its hits after the first offset ones |
| SearchTask.PostProcessKeepsWindows | src/search_task.cpp:238-291 | the result has one limit per query, top_k their maximum, the user output fields, and each kept score times the metric's coefficient |
| SearchTask.PostProcessIds | src/search_task.cpp:261-278 | the result ids are the kept hits' ids, int or string as segcore's |
| SearchTask.PostProcessEmptyWhenOffsetCoversHits | src/search_task.cpp:245-296 | when nq * offset reaches the hit count, every topk is 0 and there are no scores, ids, columns or output fields |
| SearchTask.ShortcutAgreesOnEqualCounts | src/search_task.cpp:245-296 | when all queries have the same hit count, the short cut reports the same topks as the full copy would |
| SearchTask.SearchTask.constructor | src/search_task.cpp:33-44 | a new task holds its request, schema and indexes, with topk -1, offset 0 and empty metric, group-by and anns field |
| SearchTask.SearchTask.ParseSearchInfo | src/search_task.cpp:48-142 | the verdict, the query info and the task's fields are those of the parse specification |
| SearchTask.SearchTask.ReadOne | src/search_task.cpp:53-90 | one loop iteration: the task and locals change as the one-param specification says, and nothing changes on a failure |
| SearchTask.SearchTask.ScanIndexMetric | src/search_task.cpp:193-202 | the index loop fails exactly when the specification does and otherwise yields its metric |
| SearchTask.SearchTask.ProcessVectorAnns | src/search_task.cpp:185-228 | the anns status, field, vector type and metric are those of the anns specification, and the task's metric is updated to it |
| SearchTask.SearchTask.PlanVectorAnns | src/search_task.cpp:175-228 | a failed parse is ParameterInvalid with nothing pushed; otherwise one nq, topk+offset, the placeholder group and the anns outcome |
| SearchTask.SearchTask.Process | src/search_task.cpp:155-229 | unknown output fields are ParameterInvalid; otherwise the sorted output field sets and their ids in the plan, then the parse and anns outcomes as above |
| SearchTask.SearchTask.PostProcess | src/search_task.cpp:231-298 | the result is the post-processing specification's |
| SearchTask.FindGroupByField | src/search_task.cpp:122-130 | the loop yields the first field of that name's id, or -1 |
| SearchTask.CopyHits | src/search_task.cpp:244-280 | the query loop yields the specification's top_k, topks, ranges, scores and ids |
| SearchTask.CountQuery | src/search_task.cpp:252-259 | one query's limit extends top_k, topks and the ranges as the specification says |
| SearchTask.CopyQueryHits | src/search_task.cpp:261-279 | one query's kept hits extend the scores and ids as the specification says |
| SearchTask.CopyWindow | src/search_task.cpp:261-278 | the inner loop appends the window's scaled scores and its ids |
| SearchTask.SliceColumns | src/search_task.cpp:282-290 | each result column is the segcore column sliced to the ranges |
| QueryTask.ReadParam | src/query_task.cpp:83-103 | reading one query param fails exactly on a limit or offset value std::stoll rejects |
| QueryTask.ScanStopStays | src/query_task.cpp:83-103 | once a numeric value fails to parse, the later params are never read |
| QueryTask.ScanRunsThrough | src/query_task.cpp:83-103 | the param loop completes exactly when every limit and offset value parses |
| QueryTask.ScanLastWins | src/query_task.cpp:83-103 | after a full scan the limit and offset are those of their last params, or the old values |
| QueryTask.CheckLimits | src/query_task.cpp:104-135 | on success 0 <= offset < 16384, the limit is -1 only for a count and the plan limit limit+offset stays below 16384; every failure is ParameterInvalid |
| QueryTask.ParseParamsSpec | src/query_task.cpp:80-136 | ParseQueryParams succeeds exactly when the numbers parse, the offset is in [0, 16384), a missing limit comes with a count or an expression, and a given limit plus offset stays below 16384; the limit is the given one, -1 for a count, or 16383 - offset |
| QueryTask.EmptyExprNeedsLimit | src/query_task.cpp:111-116 | a non-count query with an empty expression and no limit is rejected |
| QueryTask.CountQueryExamples | src/query_task.cpp:140-145 | exactly one output field reading count(*) in any case makes a count query; two fields or none do not |
| QueryTask.UserScalarIdsSpec | src/query_task.cpp:46-52 | with no output fields, the ids are exactly those of the user fields that are not vectors |
| QueryTask.NamedIdsSpec | src/query_task.cpp:63-75 | the named ids exist exactly when every output is the pk or a schema name, and are then exactly the user field ids of the non-pk outputs |
| QueryTask.OutputFieldIdsNamed | src/query_task.cpp:44-78 | with output fields, the lookup succeeds exactly when each output names a field, and the pk ids come first |
| QueryTask.ReducedRows | src/query_task.cpp:198-205 | a reduced column keeps the type, id, name and dynamic flag of the segcore column |
| QueryTask.ReducedFull | src/query_task.cpp:198-205 | a reduced column holds exactly the picked rows, at the original row width |
| QueryTask.WindowColumns | src/query_task.cpp:207-219 | one sliced column per reduced column |
| QueryTask.RelabelAll | src/query_task.cpp:236-261 | every result column is relabelled from the schema by FillInFieldInfo |
| QueryTask.KeptWindow | src/query_task.cpp:207-219 | the returned rows are the kept rows from the offset on, at least one and at most the limit |
| QueryTask.WindowColumnRows | src/query_task.cpp:207-219 | each sliced column holds exactly the segcore column's cells of the kept rows in the window |
| QueryTask.PostProcessOk | src/query_task.cpp:180-234 | a non-count post-process succeeds exactly when every column can be reduced by id, and then lists the user output fields |
| QueryTask.PostProcessRows | src/query_task.cpp:195-219 | each result column holds the segcore column's cells of the rows in the limit/offset window of the id-deduplicated rows |
| QueryTask.PostProcessEmpty | src/query_task.cpp:220-227 | when the offset reaches the row count, the result has the schema's empty user columns |
| QueryTask.QueryTask.constructor | src/query_task.cpp:33-40 | a new task has limit -1, offset 0, no output fields and is not a count |
| QueryTask.QueryTask.GetOutputFieldIds | src/query_task.cpp:44-78 | the method succeeds exactly when the output field id specification does and then yields its ids |
| QueryTask.QueryTask.ParseQueryParams | src/query_task.cpp:80-136 | the status, the new limit and offset and the plan limit are those of the params specification |
| QueryTask.QueryTask.ReadOne | src/query_task.cpp:84-102 | one loop iteration changes limit and offset as the one-param specification says, and nothing on a failure |
| QueryTask.QueryTask.ApplyLimits | src/query_task.cpp:104-135 | the range checks and defaults give the status, limit and plan limit of the limits specification |
| QueryTask.QueryTask.Process | src/query_task.cpp:138-178 | count detection, then the params, then the expression; a count query adds count(*) to the user outputs with no ids, otherwise the outputs are translated and their ids planned |
| QueryTask.QueryTask.PlanOutputs | src/query_task.cpp:159-175 | the outputs are translated and their ids planned, or the step is ParameterInvalid |
| QueryTask.QueryTask.PostProcess | src/query_task.cpp:180-234 | the verdict and results are those of the post-processing specification |
| QueryTask.CollectUserScalarIds | src/query_task.cpp:46-52 | the loop yields the user scalar ids |
| QueryTask.ScanFields | src/query_task.cpp:54-62 | the loop yields the pk ids, the last pk name and the name-to-id map |
| QueryTask.AppendNamedIds | src/query_task.cpp:63-75 | the loop fails exactly when the named-id specification does and otherwise appends its ids |
| QueryTask.ReducedAll | src/query_task.cpp:196-205 | one reduced column per segcore column |
| QueryTask.ReduceColumns | src/query_task.cpp:196-205 | the reduce loop succeeds exactly when every column can be reduced, and yields the row count and the reduced columns |
| QueryTask.ReduceStep | src/query_task.cpp:198-205 | one reduce iteration: fails only on an untyped column with kept rows, and extends the reduced columns |
| QueryTask.ReduceOne | src/query_task.cpp:199-203 | ReduceFieldByIDs on one column: fails only on an untyped column with kept rows, and keeps the first row of each id |
| QueryTask.SliceColumns | src/query_task.cpp:208-219 | the slice loop yields each column's window |
| QueryTask.SliceStep | src/query_task.cpp:208-219 | one slice iteration extends the columns by the next window |
| QueryTask.SliceOne | src/query_task.cpp:209-218 | one sliced column is the column's window |
| QueryTask.FillEmptyColumns | src/query_task.cpp:221-226 | the loop yields an empty column per user field |
| HybridRank.ReadRank | src/hybrid_search_task.cpp:37-67 | reading one rank param fails exactly on a limit, offset or round_decimal value std::stoll rejects; other keys change nothing |
| HybridRank.ScanRankStopStays | src/hybrid_search_task.cpp:37-68 | once a value fails to parse, the later rank params are never read |
| HybridRank.ScanRankRunsThrough | src/hybrid_search_task.cpp:37-68 | the rank param loop completes exactly when every numeric value parses |
| HybridRank.ScanRankLastWins | src/hybrid_search_task.cpp:37-68 | after a full scan offset, limit and round_decimal hold their last values, or the old ones |
| HybridRank.CheckRank | src/hybrid_search_task.cpp:70-87 | the corrected checks pass exactly when offset >= 0, limit > 0 and offset + limit <= 16384; failures are ParameterInvalid |
| HybridRank.ParseRankSpec | src/hybrid_search_task.cpp:33-88 | the corrected ParseRankParams succeeds exactly when the numbers parse, offset >= 0, limit > 0 and their sum <= 16384, and then holds the last values (round_decimal -1 by default) |
| HybridRank.MissingLimitRejected | src/hybrid_search_task.cpp:75-78 | without a limit the rank params are rejected |
| HybridRank.ToUint64 | src/hybrid_search_task.h:86 | storing into the uint64 offset_ keeps a value in [0, 2^64), unchanged when already there |
| HybridRank.ToInt64 | src/hybrid_search_task.cpp:80 | reading the depth back as int64 keeps the value modulo 2^64 inside the int64 range, unchanged when already there |
| HybridRank.NegativeOffsetAcceptedAsWritten | src/hybrid_search_task.cpp:70-86 | as written, limit 10 with offset -1 passes (offset_ is 2^64-1, the wrapped depth 9); the corrected check rejects it |
| HybridRank.ParseRankCorrection | src/hybrid_search_task.cpp:70-86 | wherever the corrected check accepts, the code as written gives the same verdict and values |
| HybridMerge.Lookup | src/hybrid_search_task.cpp:214-215 | a score-map lookup misses exactly when no entry has the id |
| HybridMerge.Increase | src/hybrid_search_task.cpp:218 | adding to an entry keeps the map's ids in place |
| HybridMerge.IncreaseLookup | src/hybrid_search_task.cpp:218 | after `+=` the id's score grows by the hit's score and every other id reads as before |
| HybridMerge.LookupSnoc | src/hybrid_search_task.cpp:216 | inserting a new id at the end leaves the earlier ids' scores alone |
| HybridMerge.AddHitLookup | src/hybrid_search_task.cpp:213-219 | one hit makes its id read its previous score (or 0) plus the hit's score; other ids are unchanged |
| HybridMerge.AddHitDistinct | src/hybrid_search_task.cpp:213-219 | the score map never holds an id twice |
| HybridMerge.LookupEntry | src/hybrid_search_task.cpp:214-218 | an entry's id reads the entry's score |
| HybridMerge.SegmentInside | src/hybrid_search_task.cpp:209-221 | query i's hits lie inside the sub-result's scores and ids |
| HybridMerge.AddRunLookup | src/hybrid_search_task.cpp:212-220 | one query's run of hits adds to each id the sum of its scores in the run |
| HybridMerge.AddRunDistinct | src/hybrid_search_task.cpp:212-220 | after a run the map still holds each id once |
| HybridMerge.TotalScoreUnseen | src/hybrid_search_task.cpp:207-223 | an id no sub-result returns for the query has total 0 |
| HybridMerge.MergedLookup | src/hybrid_search_task.cpp:207-223 | after all sub-results, a query's map holds exactly the ids some sub-result returned, each with the sum of all its scores |
| HybridMerge.MergedDistinct | src/hybrid_search_task.cpp:207-223 | the merged map holds each id once |
| HybridMerge.MergedEntries | src/hybrid_search_task.cpp:207-223 | each merged entry is a returned id with its total score |
| HybridMerge.InsertDesc | src/hybrid_search_task.cpp:231-238 | inserting by score adds exactly the one entry |
| HybridMerge.SortDesc | src/hybrid_search_task.cpp:231-238 | the ranking is a permutation of the map's entries |
| HybridMerge.InsertDescSorted | src/hybrid_search_task.cpp:233-238 | inserting keeps the order by descending score |
| HybridMerge.InsertDescDistinct | src/hybrid_search_task.cpp:233-238 | inserting a new id keeps the ids distinct |
| HybridMerge.SortDescSpec | src/hybrid_search_task.cpp:231-238 | the ranking is sorted by descending score, a permutation of the entries, and keeps distinct ids distinct |
| HybridMerge.WindowSpec | src/hybrid_search_task.cpp:224-246 | a query returns 0 hits when the map is smaller than offset, else the ranked entries [offset, min(offset+limit, size)) |
| HybridMerge.QueryWindowSpec | src/hybrid_search_task.cpp:207-246 | each returned hit of a query is a returned id with its total score, in descending order, at most limit of them after the first offset |
| HybridMerge.Scores | src/hybrid_search_task.cpp:247-248 | one score per returned hit |
| HybridMerge.ScoresAt | src/hybrid_search_task.cpp:247-248 | score k is hit k's score |
| HybridMerge.IdsOfReadBack | src/hybrid_search_task.cpp:249-250 | AppendToIDs builds one id per hit of the hits' kind, and reading id j back gives hit j's id |
| HybridMerge.AllWindows | src/hybrid_search_task.cpp:224-252 | one window per query, each the query window |
| HybridMerge.Sizes | src/hybrid_search_task.cpp:246 | topks entry i is the size of query i's window |
| HybridMerge.FlattenAt | src/hybrid_search_task.cpp:246-251 | hit k of query i sits at position start(i) + k of the flattened scores and ids |
| HybridMerge.WindowsKind | src/hybrid_search_task.cpp:207-251 | every returned id has the kind of the sub-results' ids |
| HybridMerge.EmittedReadBack | src/hybrid_search_task.cpp:224-252 | reading back the output at start(i) + k gives hit k of query i's window, id and score |
| HybridMerge.AddSegment | src/hybrid_search_task.cpp:212-220 | the inner loop adds the run as the run specification says |
| HybridMerge.AddResult | src/hybrid_search_task.cpp:209-222 | one sub-result adds each query's hits to that query's map |
| HybridMerge.EmptyMaps | src/hybrid_search_task.cpp:207 | nq empty score maps |
| HybridMerge.AccumulateScores | src/hybrid_search_task.cpp:207-223 | the loops leave each query's map equal to the merged specification |
| HybridMerge.InsertByScore | src/hybrid_search_task.cpp:233-238 | inserting one entry gives the specified insertion |
| HybridMerge.SortByScore | src/hybrid_search_task.cpp:231-238 | the sort gives the ranking the specification defines |
| HybridMerge.EmitWindow | src/hybrid_search_task.cpp:244-251 | one query appends its window's size to topks and its scores and ids to the output |
| HybridMerge.EmitWindows | src/hybrid_search_task.cpp:224-252 | the output topks are the window sizes and the scores and ids are the flattened windows' |
| HybridFetch.Quoted | src/hybrid_search_task.cpp:277-282 | one quoted text per string id |
| HybridFetch.QuotedAt | src/hybrid_search_task.cpp:278-282 | item k is string id k between single quotes |
| HybridFetch.InExprListsIds | src/hybrid_search_task.cpp:269-286 | the filter reads `<pk> in [...]`; splitting the list at commas gives one piece per id, each parsing back to its int id or equal to the quoted string id |
| HybridFetch.OffsetsUpToSpec | src/hybrid_search_task.cpp:304-308 | the offsets map holds every queried id, at the last position where it occurs |
| HybridFetch.SearchOrder | src/hybrid_search_task.cpp:310-314 | one query position per search hit |
| HybridFetch.SearchOrderReadsBack | src/hybrid_search_task.cpp:304-314 | a hit whose id the query returned gets that id's last position; a missing id gets 0 |
| HybridFetch.SearchOrderBelow | src/hybrid_search_task.cpp:304-314 | every position is a row of the query result, when that result has a row |
| HybridFetch.OutputIdsPrefix | src/schema_util.cpp:763-781 | GetOutputFieldsIds (return value ignored) yields at most one id per output name, stopping at the first unknown name |
| HybridFetch.FetchColumnRows | src/hybrid_search_task.cpp:324-329 | a fetched column holds the query column's rows in search order, with its type, name and dynamic flag |
| HybridFetch.FetchColumns | src/hybrid_search_task.cpp:318-330 | at most one fetched column per query column |
| HybridFetch.FetchColumnsSpec | src/hybrid_search_task.cpp:318-330 | each fetched column comes from a query column whose field id is an output id, and every such query column is fetched |
| HybridFetch.FetchResultSpec | src/hybrid_search_task.cpp:289-338 | the search's ids, scores and topks are kept, the user output names are appended, and each wanted typed query column is present with its rows in search order |
| HybridSearchTask.WithoutOffset | src/hybrid_search_task.cpp:181-187 | dropping offset never adds params |
| HybridSearchTask.WithoutOffsetKeeps | src/hybrid_search_task.cpp:181-187 | the copied params are exactly the sub-request's params other than offset |
| HybridSearchTask.WithoutOffsetLastValue | src/hybrid_search_task.cpp:181-187 | every other key keeps its last value, and offset has none |
| HybridSearchTask.MetricForSpec | src/hybrid_search_task.cpp:90-132 | no anns_field is ParameterInvalid, an unknown vector field fails with code 1100; otherwise the metric is the index's when an index metric exists and agrees with any given metric |
| HybridSearchTask.Metrics | src/hybrid_search_task.cpp:189-190 | one metric outcome per sub-request |
| HybridSearchTask.MetricFailuresAreErrors | src/hybrid_search_task.cpp:90-132 | a metric failure never carries the Ok code |
| HybridSearchTask.Generate | src/hybrid_search_task.cpp:157-193 | the loop pushes one metric per pushed request, at most one per sub-request |
| HybridSearchTask.GenerateSpec | src/hybrid_search_task.cpp:157-193 | the loop succeeds exactly when every sub-request has the first nq and a metric; the pushed requests are the sub-requests without offset; a failure stops at the first bad sub-request |
| HybridSearchTask.PlanSpec | src/hybrid_search_task.cpp:134-195 | ProcessSearch after the output fields succeeds exactly when the rank params pass, the rescorers are made, and every sub-request has the first nq and a metric; it then pushes every sub-request without its offset |
| HybridSearchTask.NqMismatchRejected | src/hybrid_search_task.cpp:159-165 | a sub-request whose nq differs from the first one's fails the request |
| HybridSearchTask.GenerateStops | src/hybrid_search_task.cpp:157-193 | after a failure, later sub-requests change nothing |
| HybridSearchTask.CopyWithoutOffset | src/hybrid_search_task.cpp:181-187 | the copy loop yields the params without offset |
| HybridSearchTask.BuildSubRequest | src/hybrid_search_task.cpp:167-188 | the sub-request takes the hybrid request's collection, partitions and consistency and the sub-request's dsl, placeholder, nq and params without offset |
| HybridSearchTask.BuildOffsets | src/hybrid_search_task.cpp:304-308 | the loop builds the offsets map of the specification |
| HybridSearchTask.OrderBySearch | src/hybrid_search_task.cpp:310-314 | the loop builds the search order of the specification |
| HybridSearchTask.FetchColumnsLoop | src/hybrid_search_task.cpp:318-330 | the loop fetches the columns of the specification |
| HybridSearchTask.QuoteStrIds | src/hybrid_search_task.cpp:277-282 | the loop quotes the string ids as the specification does |
| HybridSearchTask.HybridSearchTask.constructor | src/hybrid_search_task.h:33-41 | a new task has offset 0, limit -1, round_decimal -1, nq -1 and no output fields |
| HybridSearchTask.HybridSearchTask.ParseRankParams | src/hybrid_search_task.cpp:33-88 | the status and the task's offset, limit and round_decimal are those of the corrected rank specification |
| HybridSearchTask.HybridSearchTask.ReadRankParam | src/hybrid_search_task.cpp:38-67 | one loop iteration changes the rank values as the one-param specification says, nothing on a failure |
| HybridSearchTask.HybridSearchTask.ScanIndexMetric | src/hybrid_search_task.cpp:110-119 | the index loop fails exactly when an index does not parse and otherwise yields the last metric of the field |
| HybridSearchTask.HybridSearchTask.GetMetricType | src/hybrid_search_task.cpp:90-132 | the status and metric are those of the metric specification |
| HybridSearchTask.HybridSearchTask.GenerateSearchRequests | src/hybrid_search_task.cpp:157-193 | the loop's status, pushed requests and metrics are those of the generation specification |
| HybridSearchTask.HybridSearchTask.NextSearchRequest | src/hybrid_search_task.cpp:158-192 | one iteration extends the generation specification by one sub-request |
| HybridSearchTask.HybridSearchTask.ProcessSearch | src/hybrid_search_task.cpp:134-195 | no sub-request is ParameterInvalid with nothing changed; unknown output fields are ParameterInvalid; otherwise status, rank values, nq, pushed requests and metrics follow the plan specification |
| HybridSearchTask.HybridSearchTask.PostProcessSearch | src/hybrid_search_task.cpp:197-254 | Ok, with nq queries, top_k the limit, and per query the window of ranked merged hits as topks, scores and ids |
| HybridSearchTask.HybridSearchTask.ProcessQuery | src/hybrid_search_task.cpp:256-287 | the query request names the collection, the output fields and partitions, strong consistency and the filter listing the search's ids |
| HybridSearchTask.HybridSearchTask.FillInFieldInfo | src/hybrid_search_task.cpp:341-349 | every column is relabelled from the schema |
| HybridSearchTask.HybridSearchTask.PostProcess | src/hybrid_search_task.cpp:289-339 | Ok, and the result of the fetch specification |
| InsertTask.RowIdsIncrease | src/insert_task.cpp:254-279 | row ids rise strictly with the row within a batch, and every id of a later batch (counter advanced by the earlier batch's size, clock not gone back) is above every id of the earlier one |
| InsertTask.FirstDynamic | src/insert_task.cpp:116-123 | the position found is a dynamic column with no dynamic column before it; none is found exactly when no column is dynamic |
| InsertTask.DynamicColumnsSpec | src/insert_task.cpp:111-137 | without a dynamic schema the columns are untouched; with one a $meta dynamic column is present, either a renamed existing column (count unchanged) or an appended default column with one cell per row (the corrected default) |
| InsertTask.MetaDefaultAsWrittenTooShort | src/insert_task.cpp:125-135 | the default $meta as written has no cell for row 1 of a two-row batch, while one "{}" per row makes both rows readable |
| InsertTask.NameMapSpec | src/insert_task.cpp:73-75 | a name is in the emplace map exactly when some column carries it, and it maps to the first such column |
| InsertTask.PkColumns | src/insert_task.cpp:79-99 | one generated key column per schema field |
| InsertTask.PkColumnsNamed | src/insert_task.cpp:81-84 | each generated key column carries its schema field's name |
| InsertTask.GenFailedStays | src/insert_task.cpp:101-104 | once a field is reported lost the later schema fields change nothing |
| InsertTask.GenSpec | src/insert_task.cpp:71-109 | GenFieldMap succeeds exactly when every schema field has a request column or is an auto-id primary key; it then maps every schema field's name to a column of that name, keeps the request's columns in front and appends only generated key columns |
| InsertTask.RowDim | src/insert_task.cpp:239-243 | the corrected per-row dim: it exceeds every key of the row and is reached by one of them (0 for an empty row) |
| InsertTask.SparseDimSpec | src/insert_task.cpp:221-249 | the corrected column dim exceeds every key of every row and is reached by some key (0 without entries) |
| InsertTask.SparseDimAsWrittenForgetsRows | src/insert_task.cpp:224-248 | with rows {9} then {1} the dim as written is 2, below the first row's key 9, while the corrected dim is 10 |
| InsertTask.SchemaDims | src/insert_task.cpp:197 | one dim per schema field |
| InsertTask.CheckField | src/insert_task.cpp:193-249 | one field's check keeps the column count |
| InsertTask.CheckUpTo | src/insert_task.cpp:193-250 | the check loop keeps the column count |
| InsertTask.CheckFailedStays | src/insert_task.cpp:198-220 | after the first failed check the later schema fields change nothing |
| InsertTask.CheckUpToShape | src/insert_task.cpp:221-249 | setting sparse dims leaves every column's type, dim and payload as they came |
| InsertTask.CheckUpToSpec | src/insert_task.cpp:193-251 | the loop passes exactly when every FloatVector field has a positive schema dim, a float count divisible by it and, measured in the column's own dim, exactly num_rows rows; a failure returns the status of a FloatVector field that failed |
| InsertTask.FloatCheckRows | src/insert_task.cpp:194-220 | a passed float check leaves every row below num_rows readable |
| InsertTask.NegativeDimRejected | src/insert_task.cpp:209-220 | a request column with a negative vector dim never passes the float check: ParameterInvalid (the row count comes out non-positive), or Undefined when the float count does not divide by the schema dim |
| InsertTask.FloatCheckPassedShape | src/insert_task.cpp:194-220 | a passed float check with rows to check was made on a FloatVector column of positive dim |
| InsertTask.CheckAllStatus | src/insert_task.cpp:187-252 | the check's status is Ok or a failure CHECK_STATUS passes on |
| InsertTask.ColumnsOf | src/insert_task.cpp:166-167 | one column per schema field, looked up by name |
| InsertTask.RowPicks | src/insert_task.cpp:161-169 | one record column per schema field |
| InsertTask.RecordFieldSpec | src/insert_task.cpp:162-169 | a record column carries the schema field's id, name and type and exactly row i of the field's column |
| InsertTask.RecordFailedStays | src/insert_task.cpp:166-172 | once a slice fails the later schema fields change nothing |
| InsertTask.RecordUpToSpec | src/insert_task.cpp:158-181 | a record is built exactly when no schema field's column is without data; it then holds the row's slice of every field in schema order, and the key text comes from the key field |
| InsertTask.RowsFailedStays | src/insert_task.cpp:157-172 | once the row loop has returned FieldNotFound the later rows change nothing |
| InsertTask.RowsUpToOk | src/insert_task.cpp:157-184 | with every column holding data the loop pushes all rows, row r built from row r of every column and tagged with its key text |
| InsertTask.RowsUpToFails | src/insert_task.cpp:166-172 | a column without data gives FieldNotFound at the first row and no row is pushed |
| InsertTask.LongValues | src/insert_task.cpp:86-98 | exactly num_rows values are read back from long_data |
| InsertTask.PreparedRowIds | src/insert_task.cpp:50-90 | after AddSystemField the first column named RowID holds num_rows int64 values; with no request column of that name they are exactly the ids AddSystemField handed out, and a request's own non-dynamic RowID column is the one GenFieldMap reads |
| InsertTask.PreparedAt | src/insert_task.cpp:42-137 | the prepared columns are the request's (the first dynamic one possibly renamed $meta), then RowID and Timestamp, then possibly the default $meta, nothing else |
| InsertTask.MappedReady | src/insert_task.cpp:193-200 | after GenFieldMap every schema field is mapped and every FloatVector field's column has a non-zero dim, the one the float check divides by |
| InsertTask.CheckedEmittable | src/insert_task.cpp:157-181 | after a passed vector check every schema field's column has num_rows readable rows, so the row loop never reads out of range |
| InsertTaskClass.RowIdCounter.constructor | src/insert_task.cpp:35 | the process-wide row-id counter starts at 0 |
| InsertTaskClass.InsertTask.constructor | src/insert_task.cpp:37-40 | the task holds the request and schema, num_rows 0 and an empty field map |
| InsertTaskClass.InsertTask.GetTimestamp | src/insert_task.cpp:260-268 | the hybrid timestamp: milliseconds shifted left by 18 plus the counter |
| InsertTaskClass.InsertTask.GetTimestamps | src/insert_task.cpp:254-258 | one clock reading repeated for every row |
| InsertTaskClass.InsertTask.GetRowIds | src/insert_task.cpp:270-279 | row i gets i + counter + timestamp i, and the counter advances by the batch size |
| InsertTaskClass.InsertTask.LongColumn | src/insert_task.cpp:53-67 | builds an Int64 column of the given values |
| InsertTaskClass.InsertTask.AddSystemField | src/insert_task.cpp:42-69 | num_rows is the request's count wrapped to 32 bits; it fails exactly when that is 0, leaving the request untouched; otherwise RowID and Timestamp columns are appended and the counter advances by num_rows |
| InsertTaskClass.InsertTask.FindDynamicFieldId | src/insert_task.cpp:128-133 | the id of the first dynamic schema field, 0 when there is none |
| InsertTaskClass.InsertTask.MetaColumn | src/insert_task.cpp:125-135 | the corrected default $meta column, one "{}" per row |
| InsertTaskClass.InsertTask.CheckDynamicFieldData | src/insert_task.cpp:111-137 | always succeeds and leaves the columns as DynamicColumnsSpec describes |
| InsertTaskClass.InsertTask.BuildPkColumn | src/insert_task.cpp:81-99 | the generated key column: row ids in long_data, or their decimal text for a VarChar key |
| InsertTaskClass.InsertTask.GenFieldMap | src/insert_task.cpp:71-109 | success, columns and field map are those GenSpec characterises |
| InsertTaskClass.InsertTask.NameMapOf | src/insert_task.cpp:73-75 | the emplace loop's map, first column per name |
| InsertTaskClass.InsertTask.GenSchemaLoop | src/insert_task.cpp:77-106 | the schema loop's outcome, with the row ids read back through RowID |
| InsertTaskClass.InsertTask.GenLoop | src/insert_task.cpp:77-106 | the schema loop stopping at the first lost field |
| InsertTaskClass.InsertTask.RowDimOf | src/insert_task.cpp:239-243 | one row's corrected dim, as RowDim characterises it |
| InsertTaskClass.InsertTask.SparseDimOf | src/insert_task.cpp:224-248 | a sparse column's corrected dim, as SparseDimSpec characterises it |
| InsertTaskClass.InsertTask.CheckOrSetVectorDim | src/insert_task.cpp:187-252 | status and updated columns are those CheckUpToSpec characterises, with 0 rows rejected first |
| InsertTaskClass.InsertTask.CheckFields | src/insert_task.cpp:193-250 | the check loop over all schema fields |
| InsertTaskClass.InsertTask.CheckOne | src/insert_task.cpp:194-249 | one schema field's check, sparse dim set in place |
| InsertTaskClass.InsertTask.BuildRecord | src/insert_task.cpp:158-181 | one row's record, as RecordUpToSpec characterises it |
| InsertTaskClass.InsertTask.EmitRows | src/insert_task.cpp:157-183 | the row loop, as RowsUpToOk and RowsUpToFails characterise it |
| InsertTaskClass.InsertTask.Process | src/insert_task.cpp:139-185 | status and rows are the whole pipeline's (ParameterInvalid for a failed preparation or a schema without key, the vector check's failure, or the rows) and the counter advances by num_rows |
| UpsertTask.LongData | src/upsert_task.cpp:24-26 | never more values than cells |
| UpsertTask.StringData | src/upsert_task.cpp:27-30 | never more strings than cells |
| UpsertTask.LongDataAll | src/upsert_task.cpp:24-26 | over int cells the copied long_data is exactly the cells' values, in order |
| UpsertTask.FirstPrimary | src/upsert_task.cpp:12-18 | the position found is a primary-key field with none before it; none is found exactly when no field is a primary key |
| UpsertTask.FirstColumn | src/upsert_task.cpp:22-35 | the position found is a column of that name with none before it; none is found exactly when no column has the name |
| UpsertTask.Process | src/upsert_task.cpp:9-47 | status, insert request and delete ids are ProcessSpec's: no primary key is ServiceInternal, a key column of a type other than Int64 or VarChar is ParameterInvalid before the insert request is written, otherwise the upsert's collection, columns, hash keys and row count are copied |
| UpsertTask.NoPrimaryKey | src/upsert_task.cpp:19-20 | a schema without primary key gives ServiceInternal (code 5) and no delete ids |
| UpsertTask.Int64KeyDeletes | src/upsert_task.cpp:22-46 | an Int64 key column gives Ok, delete ids equal to the column's values one for one, and an insert request carrying the upsert's columns, hash keys and row count |
| UpsertTask.KeyTypeDecides | src/upsert_task.cpp:22-35 | a VarChar key column gives its strings as delete ids; any other non-Int64 type gives ParameterInvalid (code 1100) with the insert request left empty |
| UpsertTask.NoKeyColumn | src/upsert_task.cpp:22-46 | without a column for the key the upsert still succeeds as a plain insert with no delete ids |
| DeleteTask.Process | src/delete_task.cpp:12-30 | an expression that trims to empty is ParameterInvalid; a parse failure passes the parser's status on; a schema without key is CollectionIllegalSchema; it succeeds exactly when the expression is non-blank, parses and the schema has a key, and then the plan's only output field is the key's id |
| CollectionMeta.CStr | src/collection_meta.h:78-79 | the text a const char* denotes is the longest NUL-free prefix of the buffer, stopping at its first NUL |
| CollectionMeta.CStrPlain | src/collection_meta.h:78-79 | a NUL-free string is stored unchanged |
| CollectionMeta.CStrIdempotent | src/collection_meta.h:98-104 | reading a stored string back through c_str() changes nothing |
| CollectionMeta.Values | src/collection_meta.h:107-113 | one value per entry, in key order |
| CollectionMeta.ValuesExceptAbsent | src/collection_meta.h:107-113 | excluding a name not in the map lists every index |
| CollectionMeta.ValuesExceptErase | src/collection_meta.h:107-125 | listing all but one name gives exactly the values left after dropping that name |
| CollectionMeta.ValuesExceptCount | src/collection_meta.h:107-113 | the listing has one value fewer than the map exactly when the excluded name is present |
| CollectionMeta.CollectionInfo.constructor | src/collection_meta.h:67 | a new collection info has no indexes, an empty schema and an empty key name |
| CollectionMeta.CollectionInfo.AddSchema | src/collection_meta.h:77-81 | the schema becomes the C-string text of info and the key name pk, indexes untouched |
| CollectionMeta.CollectionInfo.Schema | src/collection_meta.h:83-86 | returns the stored schema text |
| CollectionMeta.CollectionInfo.AddIndex | src/collection_meta.h:87-95 | fails exactly when the name is already present; on success only that name gains the C-string text of index, every other lookup unchanged |
| CollectionMeta.CollectionInfo.GetIndex | src/collection_meta.h:97-104 | succeeds exactly when the name is present, and then returns its stored NUL-free text |
| CollectionMeta.CollectionInfo.GetAllIndexs | src/collection_meta.h:106-113 | appends, in name order, the value of every index whose name is not the excluded one |
| CollectionMeta.CollectionInfo.HasIndex | src/collection_meta.h:115-118 | true exactly when some entry carries the name |
| CollectionMeta.CollectionInfo.DropIndex | src/collection_meta.h:120-127 | always true; afterwards the name is absent and every other lookup unchanged |
| CollectionMeta.CollectionInfo.GetPkName | src/collection_meta.h:129-132 | returns the stored key name |
| LocalIndex.Index.constructor | src/index.h:15 | a new index has no loaded collection |
| LocalIndex.Index.HasLoaded | src/index.h:26-29 | true exactly when the name is among the loaded collections |
| LocalIndex.Index.CreateCollection | src/index.cpp:9-22 | a loaded name is Ok and keeps its segment; otherwise a segment with the schema is added exactly when the engine accepts it, and the engine's failure is returned with the map unchanged |
| LocalIndex.Index.DropCollection | src/index.cpp:24-30 | always true; the name is removed and nothing else |
| LocalIndex.Index.CreateIndex | src/index.cpp:32-42 | an unloaded name is CollectionNotFound; the engine's failure leaves the map unchanged; on success only that segment's index meta is replaced; the loaded names never change |
| LocalIndex.Index.Insert | src/index.cpp:44-53 | an unloaded name is CollectionNotFound; otherwise the engine's status, and the record is appended to that segment exactly when it succeeds |
| LocalIndex.Index.Retrieve | src/index.cpp:55-64 | CollectionNotFound for an unloaded name, the engine's status otherwise |
| LocalIndex.Index.Search | src/index.cpp:66-77 | CollectionNotFound for an unloaded name, the engine's status otherwise |
| LocalIndex.Index.DeleteByIds | src/index.cpp:79-88 | CollectionNotFound for an unloaded name, otherwise the engine's status; the id batch is recorded on that segment exactly when it succeeds |
| MilvusLocal.CheckCollectionName | src/milvus_local.cpp:57-89 | Ok exactly when the name is a non-empty identifier of letters, digits and underscores not starting with a digit and at most 255 long; every failure is ParameterInvalid |
| MilvusLocal.CollectionNameIsFieldNameRule | src/milvus_local.cpp:57-89 | checking a trimmed collection name gives the same verdict as the field-name rule of collection creation |
| MilvusLocal.FirstFailure | src/milvus_local.cpp:274-280 | the rows before the first failed insert all succeeded, and the row at the returned position (if any) failed |
| MilvusLocal.RunStatus | src/milvus_local.cpp:133-136 | a run of inserts is Ok exactly when every insert succeeded |
| MilvusLocal.Effective | src/index.cpp:44-53 | one index status per row |
| MilvusLocal.Records | src/milvus_local.cpp:275 | the serialized record of every row, in order |
| MilvusLocal.Ids | src/milvus_local.cpp:278 | the key text of every row, in order |
| MilvusLocal.UnloadedTakesNothing | src/index.cpp:48-51 | inserting into a collection that is not loaded takes no row and reports CollectionNotFound |
| MilvusLocal.FirstFailureAt | src/milvus_local.cpp:274-280 | the first failure is exactly the position before which every insert succeeded and at which one failed |
| MilvusLocal.FirstFailureInBatch | src/milvus_local.cpp:127-139 | after a successful prefix, a batch fails exactly when a row in it fails, and then that row is the first failure of the whole load |
| MilvusLocal.AppendedNothing | src/milvus_local.cpp:127-139 | appending no records leaves the segments unchanged |
| MilvusLocal.AppendedTwice | src/milvus_local.cpp:127-139 | appending two runs of records one after the other is appending their concatenation |
| MilvusLocal.InsertUntilFailure | src/milvus_local.cpp:273-280 | rows are handed to the index in order up to the first failure; exactly that prefix reaches the segment, the loaded names never change |
| MilvusLocal.LoadRows | src/milvus_local.cpp:125-139 | the batched load hands over the stored rows up to the first failed insert and reports that failure, or Ok when every row went in |
| MilvusLocal.RecordsSplit | src/milvus_local.cpp:127-139 | the records of a prefix reaching into a batch are the records before the batch followed by the batch's prefix |
| MilvusLocal.LoadBatch | src/milvus_local.cpp:127-138 | one batch of at most 200000 rows: on failure the load's overall status and the rows up to the first failure; on success every row so far went in |
| MilvusLocal.MilvusLocal.constructor | src/milvus_local.cpp:50-52 | a new instance is not initialized, stores nothing and has nothing loaded |
| MilvusLocal.MilvusLocal.ExistCheck | src/milvus_local.cpp:32-39 | passes exactly when the trimmed name passes the name rule and the untrimmed name is stored; otherwise an error status |
| MilvusLocal.MilvusLocal.Init | src/milvus_local.cpp:91-104 | succeeds exactly when not yet initialized and the store opens; a second call answers false |
| MilvusLocal.MilvusLocal.LoadCollection | src/milvus_local.cpp:106-142 | a failed existence check or a loaded collection changes nothing; otherwise the engine's failures are returned at the step they occur, and on success the segment gets the stored schema, all stored index protos and the stored rows up to the first failed insert |
| MilvusLocal.MilvusLocal.GetLoadState | src/milvus_local.cpp:154-162 | the existence check's failure, else CollectionLoaded or CollectionNotLoaded by whether the index has the collection |
| MilvusLocal.MilvusLocal.ReleaseCollection | src/milvus_local.cpp:144-152 | the existence check's failure, else Ok with the collection unloaded and nothing else changed |
| MilvusLocal.MilvusLocal.CreateCollection | src/milvus_local.cpp:164-191 | a bad name fails unchanged; an existing name is Ok for an equal schema and ParameterInvalid otherwise, changing nothing; a new name succeeds exactly when the index accepts it and the store commits, and only then is it stored |
| MilvusLocal.MilvusLocal.DropCollection | src/milvus_local.cpp:204-213 | a missing collection is true and changes nothing; otherwise it is unloaded, removed from the store exactly when the store commits, and true exactly then |
| MilvusLocal.MilvusLocal.CreateIndex | src/milvus_local.cpp:221-245 | an existing index name is an Ok no-op; otherwise success exactly when the index accepts the merged metas (all stored protos plus the new one) and the store commits, and only then is the proto stored |
| MilvusLocal.MilvusLocal.DropIndex | src/milvus_local.cpp:247-265 | a missing index name is an Ok no-op; otherwise success exactly when the index accepts the metas of the remaining indexes and the store commits, and only then is the index erased |
| MilvusLocal.MilvusLocal.Insert | src/milvus_local.cpp:267-286 | after the existence check always Ok; the rows up to the first failed index insert get their ids appended, reach the segment and, when the store commits, the store |
| MilvusLocal.MilvusLocal.Upsert | src/milvus_local.cpp:288-295 | only the existence check's verdict; nothing changes |
| Bm25Stat.U32At | src/function/bm25_stat.h:40 | the four bytes at the position read as a little-endian uint32, below 2^32 |
| Bm25Stat.TruncF32 | src/function/bm25_stat.h:41-43 | int(freq) of the float with these bits, truncated toward zero: never negative for a positive sign bit, never positive for a negative one |
| Bm25Stat.Entries | src/function/bm25_stat.h:37-44 | an embedding of n bytes holds n/8 (key, frequency) records |
| Bm25Stat.EntryAt | src/function/bm25_stat.h:39-41 | the record read at byte offset 8i is the i-th entry: key from the first four bytes, frequency from the last four |
| Bm25Stat.BumpedGet | src/function/bm25_stat.h:42 | after the loop each key's row count has moved by delta once per occurrence of the key in the embedding |
| Bm25Stat.BumpedKeys | src/function/bm25_stat.h:42 | the map's keys afterwards are the old keys plus every key of the embedding (operator[] inserts) |
| Bm25Stat.Added | src/function/bm25_stat.h:35-46 | Add keeps the field name, counts one more row and raises each key's count by its occurrences |
| Bm25Stat.RemovedAsWritten | src/function/bm25_stat.h:48-59 | Remove as written lowers each key's count by its occurrences but still adds one to the row count |
| Bm25Stat.Removed | src/function/bm25_stat.h:48-59 | the corrected Remove lowers the row count by one, with the same token and key updates |
| Bm25Stat.AddThenRemoveRestores | src/function/bm25_stat.h:35-59 | removing what was added restores the row count, the token count and every key's count (keys touched stay present with their old value) |
| Bm25Stat.AddThenRemoveAsWrittenDrifts | src/function/bm25_stat.h:58 | as written, adding then removing the same embedding leaves the row count two higher |
| Bm25Stat.Stats.constructor | src/function/bm25_stat.h:31-32 | a new Stats holds the output field name, an empty map and zero counts |
| Bm25Stat.Stats.Add | src/function/bm25_stat.h:35-46 | the new state is Added of the old one |
| Bm25Stat.Stats.Remove | src/function/bm25_stat.h:48-59 | the new state is RemovedAsWritten of the old one |
| FunctionMeta.NameFieldMapLast | src/function/function.h:57-61 | a name is in the name-to-field map exactly when some schema field has it, and it maps to the last such field |
| FunctionMeta.FirstMissing | src/function/function.h:64-73 | every name before the returned position resolves and the name at it (if any) does not |
| FunctionMeta.FirstMissingAt | src/function/function.h:64-73 | the first missing name is exactly the position before which all resolve and at which one does not |
| FunctionMeta.Resolved | src/function/function.h:64-85 | one field per resolved name |
| FunctionMeta.CreateSpec | src/function/function.h:54-90 | on success the input and output fields are, one for one and in order, the map's fields for the function's input and output names |
| FunctionMeta.CreateOkIffAllKnown | src/function/function.h:54-90 | Create succeeds exactly when every output and every input name names a schema field, exactly then a meta is made, and it carries the collection name, the function's name, its schema and the FunctionSchema type name |
| FunctionMeta.OutputsCheckedFirst | src/function/function.h:64-73 | the first unknown output name, after known ones, decides the error even when an input is also unknown |
| FunctionMeta.ResolvedFieldsNamed | src/function/function.h:118-126 | the i-th resolved output and input field carries the i-th output and input name |
| FunctionMeta.ResolveNames | src/function/function.h:64-85 | the resolving loop stops at the first missing name and otherwise returns the resolved fields |
| FunctionMeta.Create | src/function/function.h:54-90 | status and meta are CreateSpec's |
| FunctionMeta.GetInputFieldNames | src/function/function.h:128-135 | the set holds exactly the names of the input fields |
| Bm25Function.AnalyzerParamsFirst | src/function/bm25_function.h:76-82 | the tokenizer params are the value of the first analyzer_params type param, "" when there is none |
| Bm25Function.InputCountMisreported | src/function/bm25_function.h:49-54 | with one output and two inputs the message as written reports 1 input, the corrected one 2 |
| Bm25Function.InputCountReported | src/function/bm25_function.h:49-54 | the corrected input-count message ends in the decimal number of inputs |
| Bm25Function.NewBM25Function | src/function/bm25_function.h:35-87 | a function is returned exactly when the status is Ok; it then has a VarChar first input and a SparseFloatVector first output and reads the tokenizer params off that input field; a failed Create never gives one |
| Bm25Function.NewBm25PassesCreateFailure | src/function/bm25_function.h:38-41 | a failed FunctionMeta::Create is returned unchanged, with no function |
| Bm25Function.NewBm25OkIff | src/function/bm25_function.h:35-87 | NewBM25Function succeeds exactly when Create succeeds with one output and one input, the input VarChar and the output SparseFloatVector; exactly then a function is made over that meta with the input field's analyzer params |
| Bm25Function.Embeddings | src/function/bm25_function.cpp:57-60 | one embedding per document |
| Bm25Function.MaxLenSpec | src/function/bm25_function.cpp:63-66 | the column dim bounds every row's size and is reached by one row, or is 0 |
| Bm25Function.Contents | src/function/bm25_function.cpp:62-64 | one serialized content per row |
| Bm25Function.InsertOutputShape | src/function/bm25_function.cpp:30-70 | an insert succeeds exactly for one VarChar column of text (else ParameterInvalid and no output); it then emits one SparseFloatVector column under the output field's name holding each document's embedding in order, dim the largest embedding size |
| Bm25Function.SearchOutputShape | src/function/bm25_function.cpp:72-100 | a search succeeds exactly when the first placeholder is VarChar, and then emits one sparse placeholder with the standard tag and one value per query; a failure emits nothing |
| Bm25Function.InsertSearchAgree | src/function/bm25_function.cpp:57-98 | a document and an equal query text are embedded into the same sparse content |
| Bm25Function.ProcessInsert | src/function/bm25_function.cpp:30-70 | status and outputs are InsertSpec's |
| Bm25Function.ProcessSearch | src/function/bm25_function.cpp:72-100 | status and output group are SearchSpec's |
| FunctionExecutor.CreateFunction | src/function/function_executor.cpp:66-84 | a function is made exactly when the status is Ok, and it has exactly one output field |
| FunctionExecutor.CreateFunctionSpec | src/function/function_executor.cpp:66-84 | a non-BM25 type is ParameterInvalid; a BM25 type gives exactly NewBM25Function's outcome |
| FunctionExecutor.FirstOutputMatch | src/function/function_executor.cpp:32-33 | no function before the returned position has the field as first output, and the one at it (if any) does |
| FunctionExecutor.FirstOutputMatchAt | src/function/function_executor.cpp:32-33 | the first match is exactly the position before which none match and at which one does |
| FunctionExecutor.CreateForFirstMatch | src/function/function_executor.cpp:29-48 | no function with that first output gives ParameterInvalid and no executor; otherwise the first such function decides: its creation status, and on success an executor holding just that function |
| FunctionExecutor.CreateFor | src/function/function_executor.cpp:29-48 | status and executor are CreateForSpec's |
| FunctionExecutor.Outcomes | src/function/function_executor.cpp:54-55 | one creation outcome per function schema, each function with one output |
| FunctionExecutor.Collect | src/function/function_executor.cpp:53-63 | a failed collection holds no functions |
| FunctionExecutor.CollectOk | src/function/function_executor.cpp:53-63 | collecting succeeds exactly when every creation succeeded, and then holds every created function in order |
| FunctionExecutor.CollectFirstFailure | src/function/function_executor.cpp:55-58 | a failed collection returns the status of a creation that failed after only successful ones |
| FunctionExecutor.CollectFailedStays | src/function/function_executor.cpp:55-58 | once a creation has failed the later schemas change nothing |
| FunctionExecutor.CreateAllBuildsEvery | src/function/function_executor.cpp:50-64 | the all-functions Create succeeds exactly when every function creates, exactly then an executor is made, and it holds one function per schema in order |
| FunctionExecutor.CreateAllFirstFailure | src/function/function_executor.cpp:54-58 | a failure is the status of the first function schema that fails to create |
| FunctionExecutor.CollectStep | src/function/function_executor.cpp:54-60 | one more creation either fails the collection with its status or appends its function |
| FunctionExecutor.CreateAll | src/function/function_executor.cpp:50-64 | status and executor are CreateAllSpec's |
| FunctionExecutor.SelectedAppend | src/function/function_executor.cpp:100-106 | selecting input columns distributes over concatenation |
| FunctionExecutor.SelectedMembers | src/function/function_executor.cpp:100-106 | a column is selected exactly when it is a request column whose name is an input name |
| FunctionExecutor.SingleAppendsOne | src/function/function_executor.cpp:94-113 | a failed function leaves the columns as they were; a successful one appends exactly one SparseFloatVector column named after its output field |
| FunctionExecutor.RunAppendsOnePerFunction | src/function/function_executor.cpp:86-92 | running the functions keeps the request's columns in front and appends at most one column per function; on success exactly one per function, in order, each named after its output field |
| FunctionExecutor.ProcessSingeFunction | src/function/function_executor.cpp:94-113 | status and columns are SingleSpec's |
| FunctionExecutor.ProcessInsert | src/function/function_executor.cpp:86-92 | status and columns are those of running every function in order up to the first failure |
| FunctionExecutor.RunFailedStays | src/function/function_executor.cpp:88-90 | once a function has failed the later functions change nothing |
| FunctionExecutor.ProcessSearch | src/function/function_executor.cpp:115-130 | an unparsable group and a group without exactly one placeholder are ParameterInvalid; otherwise the first function decides: success exactly for a VarChar placeholder, and then the group is replaced by that function's sparse group |
| FieldInfo.Step | src/schema_util.cpp:739-755 | one write keeps the column's id, payload, dim, sparse dim and element type; only the header can change |
| FieldInfo.ByFields | src/schema_util.cpp:738-756 | the schema loop for one output name keeps the column's id and payload |
| FieldInfo.Relabel | src/schema_util.cpp:736-757 | relabelling by all output names keeps the column's id and payload |
| FieldInfo.ByFieldsUnique | src/schema_util.cpp:738-756 | with field ids unique in the schema, a column takes its field's header exactly when the output name is that field's name, and is left as it was otherwise |
| FieldInfo.ByFieldsKeepsHeader | src/schema_util.cpp:738-756 | a column already carrying its field's header keeps it |
| FieldInfo.RelabelByUniqueId | src/schema_util.cpp:736-757 | with ids unique, a column whose field is among the output names carries that field's name, id, type and dynamic flag; otherwise it is unchanged |
| FieldInfo.RelabelUnknownId | src/schema_util.cpp:736-757 | a column whose id no schema field has is left unchanged |
| FieldInfo.ByFieldsUntouched | src/schema_util.cpp:738-756 | a column whose id no schema field has is untouched by one output name's pass |
| FieldInfo.FillInFieldInfo | src/schema_util.cpp:723-762 | one column per input column, each relabelled as Relabel characterises |

## Left out

- Logging, the gRPC shell and all I/O are not modelled. The engine's and the registry's mutexes only serialise calls, so the model is sequential.
- SQLite storage is represented by what it holds per collection. Whether a SQL write commits is a boolean parameter. Serialized schemas and index descriptions are their decoded values. Failures of a storage read are not modelled.
- The segcore wrapper is not modelled. Each of its calls returns a status that the caller passes in. Query rows and search hits produced by the engine are not modelled.
- MilvusLocal's GetCollection, GetAllCollections, Retrieve, Search, DeleteByIds, GetIndex, GetAllIndexs and GetNumRowsOfCollection only forward to storage or to the index, so they are not modelled.
- The ANTLR grammar is not modelled. The parse verdicts and the parsed identifier paths the visitor receives are parameters.
- The tokenizer behind BM25 `Embedding` is a function parameter from analyzer parameters and a document to sparse entries.
- Hybrid-search rescoring (the re-scorers) is not modelled. Scores arrive already rescored, and scores are `real` because they are only added and compared.
- Protobuf encoding is not modelled. Messages are Dafny datatypes, and the MsgBase request header is dropped.
- Status detail strings are blank except in Bm25Function, FunctionMeta, FunctionExecutor and SchemaUtil, whose messages carry the source's text. Elsewhere only the error codes are modelled.
- Bm25Stat.TruncF32: float rounding of the average is modelled as truncation to an integer-valued real, and infinities and NaN are not modelled. The int32 wrap-around of the token and row counters is not modelled. A serialized embedding must be a whole number of 8-byte entries, because the source reads past the end otherwise.
- The BM25 statistics singleton and its adds with an empty embedding are not modelled.
- SchemaUtil.GetDim: a dim text out of the int64 range yields -1, whereas the source lets std::out_of_range escape; a text with no digits gives -1 in both, because the source catches std::invalid_argument.
- SchemaUtil.FindVectorField: with duplicated field names, the last vector field is found.
- SchemaUtil.SliceFieldData, SchemaUtil.PickFieldDataByIndex and SchemaUtil.ReduceFieldByIDs require columns long enough for the rows they read. The source assumes this and does not check it.
- CreateIndex.CreateIndexTask.Process omits the segcore error branch after the auto-index parameters are added; that step is proved to succeed.
- The Python file system, `fcntl`, `Popen`, signals, sockets and `pathlib` resolution are parameters. `__del__` and garbage collection are not modelled, and neither is the win32 branch.
- LegacyServer.StopSpec: the wait after SIGKILL is assumed to return.
- LiteServer.StopSpec: the wait after SIGKILL is assumed to return.
- Supervisor.InitOk: `init()` only logs a missing work directory, so the model ignores that check.
- The environment that `start()` merges is a map parameter standing for `os.environ`.
- Where a row under Findings names a corrected member, the operations are built on that corrected member. Each member below therefore departs from the source on the input the finding names, and its contract states the corrected behaviour.
- CreateCollection.Process: validates with the corrected ValidateSchema, so two fields with one name are ParameterInvalid where the source accepts them.
- PlanUtils.HandleCompare: a constant on the left is reversed with the corrected ReverseOrder and typed with the corrected canBeCompared, so `1 == x` builds `x == 1` where the source builds `x != 1`, and an Int64 column against an Int64 array element is accepted both ways round.
- PlanUtils.HandleCompareMirror: the mirror property holds for the corrected HandleCompare only; as written, `1 == x` and `x == 1` build opposite filters.
- PlanVisitor.FoldConstants: doubles are exact reals with no rounding, infinity or NaN, so a double divided by 0.0 or by int 0 is a fold error where the source folds to an infinity or NaN; int64 products, quotients and remainders do not wrap around.
- PlanVisitor.VisitMulDivModWith: inherits FoldConstants' exact arithmetic, zero-divisor errors and unbounded int64 results.
- PlanVisitor.IntConstantsFold: the folded product is an unbounded integer where the source's int64 product overflows.
- PlanVisitor.MulDivModFoldSound: soundness is stated over exact reals and unbounded integers, so floating-point rounding, infinities and int64 overflow lie outside it.
- IndexCheck.ScalarDefaults: numeric index types are checked against the corrected list STL_SORT, INVERTED, so an explicit STL_SORT on an Int64 field succeeds and an explicit Trie fails, the reverse of the source.
- IndexCheck.Defaulted: inherits ScalarDefaults' corrected numeric index list.
- IndexCheck.ScalarRules: states the rules for the corrected numeric index list.
- CreateIndex.CreateIndexTask.ApplyDefaults: applies the defaults through the corrected ScalarDefaults.
- CreateIndex.CreateIndexTask.ParseIndexParams: its parse specification uses the corrected numeric index list.
- CreateIndex.CreateIndexTask.Process: an explicit STL_SORT index on an Int64 field succeeds here and fails in the source.
- SearchTask.ParseInfoSpec: includes the corrected `0 <= offset` check, so topk 10 with offset -1 is refused where the source accepts it and searches 9 hits.
- SearchTask.SearchTask.ParseSearchInfo: proved against the corrected ParseInfoFrom, not ParseInfoAsWrittenFrom.
- SearchTask.SearchTask.PlanVectorAnns: its parse step is the corrected ParseInfoFrom.
- SearchTask.SearchTask.Process: a negative offset fails here and passes in the source.
- HybridSearchTask.PlanSpec: built on the corrected ParseRankFrom, so offset -1 with limit 10 fails where the source's unsigned offset passes.
- HybridSearchTask.HybridSearchTask.ParseRankParams: proved against the corrected ParseRankFrom, not ParseRankAsWrittenFrom.
- HybridSearchTask.HybridSearchTask.ProcessSearch: inherits the corrected rank parse, so a negative offset is refused.
- InsertTask.DynamicColumnsSpec: the appended default $meta column has one "{}" per row, where the source appends a single cell.
- InsertTask.CheckedEmittable: holds because of the corrected per-row $meta default; as written, a dynamic schema with two rows and no dynamic column leaves row 1 of $meta unreadable.
- InsertTask.RowDim: the corrected per-row dim, one more than the largest key; the source sets dim to max(dim, key) + 1 for each entry, so keys [3, 1] give 5 there and 4 here.
- InsertTask.CheckField: sets the corrected sparse dim over all rows, where the source keeps the last row's dim.
- InsertTaskClass.InsertTask.MetaColumn: builds the corrected default column, one "{}" per row; the source appends one cell.
- InsertTaskClass.InsertTask.CheckDynamicFieldData: inherits MetaColumn's per-row default.
- InsertTaskClass.InsertTask.RowDimOf: computes the corrected RowDim.
- InsertTaskClass.InsertTask.SparseDimOf: the corrected dim over all rows, so rows {9}, {1} give 10 here and 2 in the source.
- InsertTaskClass.InsertTask.CheckOrSetVectorDim: sets the corrected sparse dim.
- InsertTaskClass.InsertTask.CheckFields: sets the corrected sparse dim through CheckOne.
- InsertTaskClass.InsertTask.CheckOne: stores SparseDimOf's corrected dim.
- InsertTaskClass.InsertTask.Process: the pipeline uses the corrected sparse dim and the per-row $meta default.
- InsertTask.CheckUpTo: requires the column of every FloatVector field to carry a non-zero vector dim. The source divides the float count by that dim (src/insert_task.cpp:209), so a dim of 0 is a division by zero, which is not modelled.
- InsertTask.CheckUpToSpec: the same non-zero dim requirement as CheckUpTo.
- InsertTask.MappedReady: requires a non-zero dim on the request column of each FloatVector field. It also requires that such a field is not named RowID, Timestamp or $meta and is not an auto-id key, because the column it maps to may then be a system column of dim 0, the same division by zero.
- InsertTask.PreparedRowIds: requires every request column named RowID to hold num_rows int64 values. The source reads them only when an auto-id key has no column of its own (src/insert_task.cpp:80-90), and reading other values there is a failed std::any_cast, which is not modelled.
- InsertTaskClass.InsertTask.CheckOrSetVectorDim: the same non-zero dim requirement as CheckUpTo.
- InsertTaskClass.InsertTask.CheckFields: the same non-zero dim requirement as CheckUpTo.
- InsertTaskClass.InsertTask.CheckOne: the same non-zero dim requirement as CheckUpTo.
- InsertTaskClass.InsertTask.Process: requires the vector dims and RowID columns that MappedReady and PreparedRowIds require. The inputs these exclude crash the source.
- Bm25Function.NewBM25Function: returns the corrected input-count message, which carries the number of inputs; the source's message carries the number of outputs.
- LiteServer.NewLayout: tests the corrected NameOk, so "a.db\n" raises here and is accepted by the source's `re.match(...$)`.
- LiteServer.Server.New: inherits NewLayout's corrected name check.
- LegacyServer.NewLayout: tests the corrected NameOk, so "a.db\n" raises here and is accepted by the source.
- LegacyServer.Server.New: inherits NewLayout's corrected name check.
- ServerManager.Manager.StartAndGetUri: "a.db\n" raises through the corrected NewLayout, where the source starts a server.
- HybridMerge.SortDesc: equal scores keep the order of the score map, where the source's std::sort leaves their order unspecified.

## Findings

| source | as written | input that shows it | evidently intended | confidence | as-written member | corrected member |
|---|---|---|---|---|---|---|
| src/create_collection_task.cpp:318-324 | the set of seen field names is never filled, so duplicates pass | two fields both named "a" | a repeated field name is rejected | not executed | CreateCollection.DuplicateNamesCounterexample | CreateCollection.ValidateSchema |
| src/parser/utils.h:772-790 | reversing the operands turns Equal into NotEqual and back | `1 == x` filters `x != 1` | swapping the operands keeps == and != | not executed | PlanUtils.ReverseOrderAsWrittenNegatesEquality | PlanUtils.ReverseOrderSwapsOperands |
| src/parser/utils.h:438-457 | a pattern of wildcards only becomes an equality on the raw pattern | pattern "%" gives Equal("%") | PrefixMatch("") | not executed | PlanUtils.TranslatePatternMatchAsWritten | PlanUtils.PercentPatternCounterexample |
| src/hybrid_search_task.cpp:70-86 | the offset is unsigned, so the `offset < 0` check never fires | offset -1 with limit 10 is accepted | a negative offset is ParameterInvalid | not executed | HybridRank.NegativeOffsetAcceptedAsWritten | HybridRank.ParseRankCorrection |
| src/function/bm25_stat.h:58 | Remove adds one to the row count | Add then Remove of one document leaves the count 2 higher | Remove undoes Add | not executed | Bm25Stat.AddThenRemoveAsWrittenDrifts | Bm25Stat.AddThenRemoveRestores |
| src/insert_task.cpp:224-248 | the sparse dim is reset for every row and bumped per entry | rows {9} and {1} give dim 2 | one more than the largest key of all rows (10) | not executed | InsertTask.SparseDimAsWrittenForgetsRows | InsertTask.SparseDimSpec |
| src/create_index_task.h:53-56 | the arithmetic index list names Trie, Asceneding and INVERTED | an explicit STL_SORT on an Int64 field is rejected | STL_SORT and INVERTED are accepted | not executed | IndexCheck.ArithmeticListAsWritten | IndexCheck.ScalarRules |
| src/parser/parser.h:376-383 | an int divided by a double folds to their product | `1 / 2.0` folds to 2.0 | the quotient 0.5 | not executed | PlanVisitor.IntByDoubleFoldCounterexample | PlanVisitor.MulDivModFoldSound |
| src/parser/utils.h:505-509 | the last case compares the array's own type, not its element type | Int64 against an Int64 array is refused one way and accepted the other | comparability is symmetric | not executed | PlanUtils.CanBeComparedAsWrittenIsOneSided | PlanUtils.CanBeComparedSymmetric |
| src/parser/utils.h:352-355 | the second partition-key check tests the primary-key offset | a primary key followed by a partition key is refused | only a second partition key is refused | not executed | PlanUtils.PartitionAfterPrimaryCounterexample | PlanUtils.BuildHelperAccepts |
| src/parser/parser.h:1317-1416 | bool and string elements leave no value, so a mixed array looks uniform | `[1, "a"]` is typed Int64 | a mixed array has no element type | not executed | PlanVisitor.ArrayMixedCounterexample | PlanVisitor.VisitArray |
| src/parser/parser.h:718-734 | the reverse range reads the lower bound's inclusivity from the upper operator | `10 > x >= 5` excludes 5 and includes 10 | `5 <= x < 10` | not executed | PlanVisitor.ReverseRangeCounterexample | PlanVisitor.ReverseRangeMirrorsRange |
| src/search_task.cpp:100-105 | the offset is never checked to be non-negative | topk 10 with offset -1 is accepted | a negative offset is ParameterInvalid | not executed | SearchTask.NegativeOffsetAcceptedAsWritten | SearchTask.ParseInfoCorrection |
| src/function/bm25_function.h:49-54 | the input-count message formats the number of outputs | two input fields are reported as 1 | the message reports the inputs given | not executed | Bm25Function.InputCountMisreported | Bm25Function.InputCountReported |
| python/src/milvus_lite/server.py:51-52 | Python's `$` also matches before a final newline | "a.db\n" is accepted | only name characters are accepted | not executed | Supervisor.NewlineNameAccepted | Supervisor.NameMatchAsWrittenIff |
| src/insert_task.cpp:125-135 | the default dynamic column holds one "{}" whatever the row count | a dynamic schema, two rows and no dynamic column leave row 1 without a cell | one "{}" per row | not executed | InsertTask.MetaDefaultAsWrittenTooShort | InsertTask.DynamicColumnsSpec |
