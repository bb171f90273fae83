// MilvusServerConfig (src/milvus/__init__.py): the lightweight template
// engine that finds `{{ key(type): default }}` placeholders in the server's
// config template, the port resolver that binds one free port per `_port`
// item, and the writer that renders the template and patches extra settings
// into its YAML lines. The file system, sockets and logging are left out: the
// template text and the machine's bindable ports are parameters.
module MilvusConfig {
  import opened Wrappers
  import opened PyRuntime
  import StringUtil
  import Decimal
  import Tokenizer

  /** Where the port scan starts when an item has no usable default. */
  const RANDOM_PORT_START: int := 40000

  /** resolve_port tries this many consecutive ports. */
  const PORT_SCAN_WIDTH: nat := 10000

  /** A configurable item: the type its hint declared and its current value. */
  datatype Item = Item(vtype: PyType, value: PyValue)

  /** type_mappings: the four hints a placeholder may carry. */
  function TypeOfHint(hint: string): (t: Option<PyType>)
    ensures t.Some? <==> hint == "int" || hint == "bool" || hint == "str" || hint == "string"
  {
    if hint == "int" then Some(IntType)
    else if hint == "bool" then Some(BoolType)
    else if hint == "str" || hint == "string" then Some(StrType)
    else None
  }

  /**
   * get_value: a bool is the text "true" exactly, an int is 0 for no text and
   * int(text) otherwise, a str is the text itself (None when there is none).
   */
  function GetValue(text: Option<string>, t: PyType): (r: Outcome<PyValue>)
    ensures r.Raised? ==> t == IntType && r.error == ValueError && text.Some? && text.value != ""
    ensures r.Returned? && t != StrType ==> HasType(r.value, t)
    ensures t == StrType ==> r.Returned? && (r.value.PyNone? <==> text.None?)
  {
    match t
    case BoolType => Returned(PyBool(text == Some("true")))
    case IntType =>
      if text.None? || text.value == "" then Returned(PyInt(0))
      else
        (match IntOf(text.value)
         case Raised(e) => Raised(e)
         case Returned(n) => Returned(PyInt(n)))
    case StrType => Returned(if text.None? then PyNone else PyStr(text.value))
  }

  /** get_value_text: bools as YAML's true/false, everything else through str(). */
  function GetValueText(v: PyValue): (s: string)
    ensures !v.PyBool? ==> s == Str(v)
  {
    if v.PyBool? then (if v.b then "true" else "false") else Str(v)
  }

  /** What write_config prints for a value of the item's own type, get_value reads back. */
  lemma GetValueReadsBack(v: PyValue, t: PyType)
    requires HasType(v, t)
    ensures GetValue(Some(GetValueText(v)), t) == Returned(v)
  {
    match v
    case PyInt(i) =>
      assert GetValueText(v) == Decimal.ToString(i);
      IntReadsBack(i);
    case PyBool(b) =>
    case PyStr(s) =>
  }

  /** An int written in decimal is read back as that int. */
  lemma IntReadsBack(i: int)
    ensures GetValue(Some(Decimal.ToString(i)), IntType) == Returned(PyInt(i))
  {
    var text := Decimal.ToString(i);
    IntOfToString(i);
    assert text != "";
    assert IntOf(text) == Returned(i);
  }

  /** Only the lower-case text "true" makes a bool default true. */
  lemma BoolDefaultIsExact(text: string)
    ensures GetValue(Some(text), BoolType) == Returned(PyBool(text == "true"))
  {
  }

  /** "{{" starts at p. */
  predicate OpensAt(line: string, p: int)
  {
    0 <= p && p + 2 <= |line| && line[p] == '{' && line[p + 1] == '{'
  }

  /** "}}" starts at q. */
  predicate ClosesAt(line: string, q: int)
  {
    0 <= q && q + 2 <= |line| && line[q] == '}' && line[q + 1] == '}'
  }

  /** The last "}}" that ends by n, or -1. */
  function LastClose(line: string, n: nat): (q: int)
    requires n <= |line|
    ensures q == -1 || (q + 2 <= n && ClosesAt(line, q))
    ensures forall k | q < k && k + 2 <= n :: !ClosesAt(line, k)
    decreases n
  {
    if n < 2 then -1 else if ClosesAt(line, n - 2) then n - 2 else LastClose(line, n - 1)
  }

  /** The last "{{" that ends by n, or -1. */
  function LastOpen(line: string, n: nat): (p: int)
    requires n <= |line|
    ensures p == -1 || (p + 2 <= n && OpensAt(line, p))
    ensures forall k | p < k && k + 2 <= n :: !OpensAt(line, k)
    decreases n
  {
    if n < 2 then -1 else if OpensAt(line, n - 2) then n - 2 else LastOpen(line, n - 1)
  }

  /**
   * `re.match(r'.*\{\{(.*)}}.*', line)` on a line of the template (it holds
   * no '\n'): both stars are greedy, so the group runs from the last "{{"
   * that still has a "}}" after it up to the last "}}" of the line. The
   * answer is the pair of positions (p, q) of that "{{" and that "}}".
   */
  function Span(line: string): (r: Option<(nat, nat)>)
    ensures r.Some? ==> r.value.0 + 2 <= r.value.1 && OpensAt(line, r.value.0) && ClosesAt(line, r.value.1)
    ensures r.Some? ==> forall k | r.value.1 < k :: !ClosesAt(line, k)
    ensures r.Some? ==> forall k | r.value.0 < k && k + 2 <= r.value.1 :: !OpensAt(line, k)
    ensures r.None? <==> forall p, q | p + 2 <= q :: !(OpensAt(line, p) && ClosesAt(line, q))
  {
    var q := LastClose(line, |line|);
    if q == -1 then None
    else
      var p := LastOpen(line, q);
      if p == -1 then None else Some((p, q))
  }

  /** What one template line declares, or where it fails. */
  datatype LineResult =
    | NoPlaceholder
    | Declared(original: string, key: string, item: Item)
      /** Raised while reading the key, before either dict is touched. */
    | Rejected(error: PyError)
      /** get_value raised after config_key_maps already took the placeholder. */
    | ValueRejected(original: string, key: string, error: PyError)

  /** The key and the default of a stripped placeholder body: `key` or `key: default`; a second ':' fails the unpack. */
  function KeyAndDefault(text: string): Outcome<(string, Option<string>)>
  {
    if !Contains(text, ':') then Returned((Strip(text), None))
    else
      var parts := Split(text, ":");
      if |parts| != 2 then Raised(ValueError)
      else Returned((Strip(parts[0]), Some(Strip(parts[1]))))
  }

  /** A `name(type)` key gives the name and the hinted type; a key without '(' is a str. */
  function KeyAndType(key: string): Outcome<(string, PyType)>
  {
    if !Contains(key, '(') then Returned((key, StrType))
    else
      var parts := Split(key, "(");
      if |parts| != 2 then Raised(ValueError)
      else
        var hint := Replace(Strip(parts[1]), ")", "");
        match TypeOfHint(hint)
        case None => Raised(KeyError(hint))
        case Some(t) => Returned((Strip(parts[0]), t))
  }

  /** What a placeholder declares, given its full text and its stripped body. */
  function ParsePlaceholder(original: string, text: string): LineResult
  {
    match KeyAndDefault(text)
    case Raised(e) => Rejected(e)
    case Returned(kd) =>
      match KeyAndType(kd.0)
      case Raised(e) => Rejected(e)
      case Returned(kt) =>
        match GetValue(kd.1, kt.1)
        case Raised(e) => ValueRejected(original, kt.0, e)
        case Returned(v) => Declared(original, kt.0, Item(kt.1, v))
  }

  /** One turn of parse_template's loop, read off the line. */
  function ParseLine(line: string): LineResult
  {
    match Span(line)
    case None => NoPlaceholder
    case Some(pq) =>
      var group := line[pq.0 + 2..pq.1];
      ParsePlaceholder("{{" + group + "}}", Strip(group))
  }

  /** The placeholder text recorded for a line is a piece of the line itself. */
  lemma PlaceholderInLine(line: string)
    requires Span(line).Some?
    ensures var (p, q) := Span(line).value;
            line == line[..p] + "{{" + line[p + 2..q] + "}}" + line[q + 2..]
  {
    var (p, q) := Span(line).value;
    assert line[p..p + 2] == "{{" && line[q..q + 2] == "}}";
    assert line == line[..p] + line[p..p + 2] + line[p + 2..q] + line[q..q + 2] + line[q + 2..];
  }

  /** A placeholder body with two ':' fails to unpack into a key and a default. */
  lemma TwoColonsRaise(text: string, i: nat, j: nat)
    requires i < j < |text| && text[i] == ':' && text[j] == ':'
    ensures KeyAndDefault(text) == Raised(ValueError)
  {
    TwoOccurrencesSplitThree(text, ':', i, j);
  }

  /** A line whose placeholder body holds two ':' stops parse_template with ValueError. */
  lemma TwoColonsRejected(line: string, p: nat, q: nat, i: nat, j: nat)
    requires Span(line) == Some((p, q))
    requires var text := Strip(line[p + 2..q]);
             i < j < |text| && text[i] == ':' && text[j] == ':'
    ensures ParseLine(line) == Rejected(ValueError)
  {
    var group := line[p + 2..q];
    TwoColonsRaise(Strip(group), i, j);
    assert ParsePlaceholder("{{" + group + "}}", Strip(group)) == Rejected(ValueError);
  }

  /**
   * A key `name(hint)` declares the hinted type when the hint is int, bool,
   * str or string, and raises KeyError naming the hint otherwise; a key
   * without '(' is a str.
   */
  lemma HintedKey(name: string, hint: string)
    requires !Contains(name, '(') && !Contains(hint, '(') && !Contains(hint, ')') && Strip(hint) == hint
    ensures TypeOfHint(hint).None? ==> KeyAndType(name + "(" + hint + ")") == Raised(KeyError(hint))
    ensures TypeOfHint(hint).Some? ==> KeyAndType(name + "(" + hint + ")") == Returned((Strip(name), TypeOfHint(hint).value))
    ensures KeyAndType(name) == Returned((name, StrType))
  {
    var key := name + "(" + hint + ")";
    assert Contains(key, '(') by {
      assert key[|name|] == '(';
    }
    HintSplit(name, hint);
    var parts := Split(key, "(");
    assert |parts| == 2 && parts[0] == name && parts[1] == hint + ")";
    HintUnclosed(hint);
    assert Replace(Strip(parts[1]), ")", "") == hint;
  }

  /** Splitting `name(hint)` at '(' gives the name and `hint)`. */
  lemma HintSplit(name: string, hint: string)
    requires !Contains(name, '(') && !Contains(hint, '(')
    ensures Split(name + "(" + hint + ")", "(") == [name, hint + ")"]
  {
    var parts := [name, hint + ")"];
    assert name + "(" + hint + ")" == StringUtil.Join("(", parts);
    assert Tokenizer.FreeOf(parts, '(') by {
      assert '(' !in hint + ")" by {
        forall j | 0 <= j < |hint| + 1 ensures (hint + ")")[j] != '(' {
          if j < |hint| { assert (hint + ")")[j] == hint[j]; }
        }
      }
    }
    Tokenizer.SplitOfJoin("(", parts);
  }

  /** `hint)` stripped, with its ')' removed, is the hint again. */
  lemma HintUnclosed(hint: string)
    requires !Contains(hint, ')') && Strip(hint) == hint
    ensures Replace(Strip(hint + ")"), ")", "") == hint
  {
    var closed := hint + ")";
    assert !IsSpace(closed[|closed| - 1]) by {
      assert closed[|closed| - 1] == ')';
    }
    assert !IsSpace(closed[0]) by {
      if hint == [] {
        assert closed[0] == ')';
      } else {
        assert closed[0] == hint[0] == Strip(hint)[0];
      }
    }
    StripFixpoint(closed);
    CloseDropped(hint);
  }

  /** Removing every ')' from `hint)` leaves the hint when it has none of its own. */
  lemma CloseDropped(hint: string)
    requires !Contains(hint, ')')
    ensures Replace(hint + ")", ")", "") == hint
  {
    assert StringUtil.Join(")", [hint, ""]) == hint + ")";
    assert ')' !in hint;
    assert Tokenizer.FreeOf([hint, ""], ')');
    Tokenizer.SplitOfJoin(")", [hint, ""]);
    ReplaceIsJoinOfSplit(hint + ")", ")", "");
    assert StringUtil.Join("", [hint, ""]) == hint;
  }

  /** Where parse_template stands: its two dicts and the exception that stopped it, if any. */
  datatype Parsed = Parsed(keyMaps: Dict<string>, items: Dict<Item>, error: Option<PyError>)

  /** What one line does to the dicts; after an exception nothing more happens. */
  function Record(st: Parsed, r: LineResult): Parsed
  {
    if st.error.Some? then st
    else
      match r
      case NoPlaceholder => st
      case Declared(original, key, item) => Parsed(Put(st.keyMaps, original, key), Put(st.items, key, item), None)
      case Rejected(e) => st.(error := Some(e))
      case ValueRejected(original, key, e) => Parsed(Put(st.keyMaps, original, key), st.items, Some(e))
  }

  /** What each line of the template declares. */
  function LineResults(lines: seq<string>): (rs: seq<LineResult>)
    ensures |rs| == |lines|
  {
    if |lines| == 0 then [] else LineResults(lines[..|lines| - 1]) + [ParseLine(lines[|lines| - 1])]
  }

  lemma {:induction false} LineResultsAt(lines: seq<string>, i: nat)
    requires i < |lines|
    ensures LineResults(lines)[i] == ParseLine(lines[i])
  {
    if i < |lines| - 1 {
      LineResultsAt(lines[..|lines| - 1], i);
    }
  }

  /** parse_template's loop over the lines' results, in order. */
  function RecordAll(rs: seq<LineResult>, init: Parsed): Parsed
    decreases |rs|
  {
    if |rs| == 0 then init else Record(RecordAll(rs[..|rs| - 1], init), rs[|rs| - 1])
  }

  /** parse_template: the template split at '\n', every line recorded in turn. */
  function ParseTemplateSpec(templateText: string, init: Parsed): Parsed
  {
    RecordAll(LineResults(Split(templateText, "\n")), init)
  }

  /** A line adds at most one item, at the end, and keeps the order of the others. */
  lemma AtMostOneItemPerLine(rs: seq<LineResult>, r: LineResult, init: Parsed)
    ensures var a := RecordAll(rs, init).items.keys;
            var b := RecordAll(rs + [r], init).items.keys;
            |a| <= |b| <= |a| + 1 && b[..|a|] == a
  {
    assert (rs + [r])[..|rs|] == rs;
  }

  /** A run that ends without an exception had none at any earlier line. */
  lemma {:induction false} NoErrorBefore(rs: seq<LineResult>, init: Parsed, m: nat)
    requires m <= |rs| && RecordAll(rs, init).error.None?
    ensures RecordAll(rs[..m], init).error.None?
    decreases |rs|
  {
    if m < |rs| {
      var prefix := rs[..|rs| - 1];
      assert RecordAll(prefix, init).error.None?;
      NoErrorBefore(prefix, init, m);
      assert prefix[..m] == rs[..m];
    } else {
      assert rs[..m] == rs;
    }
  }

  /**
   * The last line declaring a key decides its item, and the last line with a
   * placeholder text decides which key that text stands for.
   */
  lemma {:induction false} LastDeclarationWins(rs: seq<LineResult>, init: Parsed, j: nat, original: string, key: string, item: Item)
    requires j < |rs| && rs[j] == Declared(original, key, item)
    requires RecordAll(rs, init).error.None?
    requires forall k | j < k < |rs| :: !(rs[k].Declared? && rs[k].key == key)
    requires forall k | j < k < |rs| :: !(rs[k].Declared? && rs[k].original == original)
    ensures var st := RecordAll(rs, init);
            key in st.items.entries && st.items.entries[key] == item
            && original in st.keyMaps.entries && st.keyMaps.entries[original] == key
    decreases |rs|
  {
    var n := |rs|;
    var prefix := rs[..n - 1];
    NoErrorBefore(rs, init, n - 1);
    if j < n - 1 {
      LastDeclarationWins(prefix, init, j, original, key, item);
    }
  }

  /** Once a line has raised, the later lines change nothing. */
  lemma {:induction false} ErrorStays(rs: seq<LineResult>, init: Parsed, m: nat)
    requires m <= |rs| && RecordAll(rs[..m], init).error.Some?
    ensures RecordAll(rs, init) == RecordAll(rs[..m], init)
    decreases |rs|
  {
    if m < |rs| {
      var prefix := rs[..|rs| - 1];
      assert prefix[..m] == rs[..m];
      ErrorStays(prefix, init, m);
    } else {
      assert rs[..m] == rs;
    }
  }

  /** Every recorded placeholder stands for a key that has an item. */
  predicate Linked(keyMaps: Dict<string>, items: Dict<Item>)
  {
    forall o | o in keyMaps.entries :: keyMaps.entries[o] in items.entries
  }

  /** A run without an exception keeps the dicts well formed and every placeholder linked to its item. */
  lemma {:induction false} RecordAllLinked(rs: seq<LineResult>, init: Parsed)
    requires DictValid(init.keyMaps) && DictValid(init.items) && Linked(init.keyMaps, init.items)
    requires RecordAll(rs, init).error.None?
    ensures var st := RecordAll(rs, init);
            DictValid(st.keyMaps) && DictValid(st.items) && Linked(st.keyMaps, st.items)
            && init.items.entries.Keys <= st.items.entries.Keys
    decreases |rs|
  {
    if |rs| > 0 {
      NoErrorBefore(rs, init, |rs| - 1);
      assert rs[..|rs| - 1] == rs[..|rs| - 1][..|rs| - 1];
      RecordAllLinked(rs[..|rs| - 1], init);
    }
  }

  /** The ports our sockets hold: one for each listen_ports entry that bound. */
  function Held(ports: Dict<Option<int>>): set<int>
  {
    set k | k in ports.entries && ports.entries[k].Some? :: ports.entries[k].value
  }

  /**
   * try_bind_port on 127.0.0.1: the bind succeeds for a port in range that
   * the machine has free and that no socket of ours already holds.
   */
  predicate Bindable(port: int, free: set<int>, held: set<int>)
  {
    0 <= port <= 65535 && port in free && port !in held
  }

  /** resolve_port's scan from start + i: the first port not already used that binds. */
  function FirstFree(start: int, i: nat, free: set<int>, held: set<int>): Option<int>
    decreases PORT_SCAN_WIDTH - i
  {
    if i >= PORT_SCAN_WIDTH then None
    else if start + i !in held && Bindable(start + i, free, held) then Some(start + i)
    else FirstFree(start, i + 1, free, held)
  }

  /**
   * The scan answers the first bindable port of [start + i, start + 10000),
   * and answers nothing only when none of them binds.
   */
  lemma {:induction false} FirstFreeIsFirst(start: int, i: nat, free: set<int>, held: set<int>)
    ensures var r := FirstFree(start, i, free, held);
            (r.Some? ==> start + i <= r.value < start + PORT_SCAN_WIDTH && Bindable(r.value, free, held)
                         && forall p | start + i <= p < r.value :: !Bindable(p, free, held))
            && (r.None? ==> forall p | start + i <= p < start + PORT_SCAN_WIDTH :: !Bindable(p, free, held))
    decreases PORT_SCAN_WIDTH - i
  {
    if i < PORT_SCAN_WIDTH {
      FirstFreeIsFirst(start, i + 1, free, held);
    }
  }

  predicate IsPortKey(key: string)
  {
    |key| >= 5 && key[|key| - 5..] == "_port"
  }

  /** The keys ending in "_port", in the items' order. */
  function PortKeys(keys: seq<string>): (ks: seq<string>)
    ensures forall i | 0 <= i < |ks| :: IsPortKey(ks[i]) && ks[i] in keys
    ensures forall i | 0 <= i < |keys| :: IsPortKey(keys[i]) ==> keys[i] in ks
    decreases |keys|
  {
    if |keys| == 0 then []
    else
      var init := PortKeys(keys[..|keys| - 1]);
      assert forall i | 0 <= i < |keys| - 1 :: keys[..|keys| - 1][i] == keys[i];
      if IsPortKey(keys[|keys| - 1]) then init + [keys[|keys| - 1]] else init
  }

  /** The message resolve_all_listen_ports raises when a configured port does not bind. */
  function BindFailed(key: string, port: int): PyError
  {
    RuntimeError("set " + key + "=" + Decimal.ToString(port) + ", but bind failed")
  }

  /**
   * One `_port` key of resolve_all_listen_ports: a port given in the configs
   * must bind as it is; otherwise the scan starts at the item's default, or
   * at 40000 when the default is false-y.
   */
  function BindKey(configs: map<string, PyValue>, items: Dict<Item>, free: set<int>, held: set<int>, key: string): (r: Outcome<Option<int>>)
    requires key in items.entries
    ensures r.Returned? && r.value.Some? ==> Bindable(r.value.value, free, held)
  {
    if key in configs then
      match IntOfValue(configs[key])
      case Raised(e) => Raised(e)
      case Returned(port) =>
        if Bindable(port, free, held) then Returned(Some(port)) else Raised(BindFailed(key, port))
    else
      var d := items.entries[key].value;
      match IntOfValue(if Truthy(d) then d else PyInt(RANDOM_PORT_START))
      case Raised(e) => Raised(e)
      case Returned(start) =>
        FirstFreeIsFirst(start, 0, free, held);
        Returned(FirstFree(start, 0, free, held))
  }

  /** A configured port binds exactly as given, or the pass raises naming the key and the port. */
  lemma ConfiguredPortBindsOrRaises(configs: map<string, PyValue>, items: Dict<Item>, free: set<int>, held: set<int>, key: string, port: int)
    requires key in items.entries && key in configs && IntOfValue(configs[key]) == Returned(port)
    ensures Bindable(port, free, held) ==> BindKey(configs, items, free, held, key) == Returned(Some(port))
    ensures !Bindable(port, free, held) ==> BindKey(configs, items, free, held, key) == Raised(BindFailed(key, port))
  {
  }

  /** Without a configured port, the key gets the first bindable port from its default, or from 40000. */
  lemma ScannedPortIsFirstFree(configs: map<string, PyValue>, items: Dict<Item>, free: set<int>, held: set<int>, key: string)
    requires key in items.entries && key !in configs
    requires !Truthy(items.entries[key].value)
    ensures var r := BindKey(configs, items, free, held, key);
            r.Returned?
            && (r.value.Some? ==>
                  RANDOM_PORT_START <= r.value.value < RANDOM_PORT_START + PORT_SCAN_WIDTH
                  && forall p | RANDOM_PORT_START <= p < r.value.value :: !Bindable(p, free, held))
  {
    FirstFreeIsFirst(RANDOM_PORT_START, 0, free, held);
  }

  /** Where resolve_all_listen_ports' first loop stands: listen_ports and the exception that stopped it. */
  datatype PortPass = PortPass(ports: Dict<Option<int>>, error: Option<PyError>)

  /** The first loop of resolve_all_listen_ports over the given keys. */
  function BindKeys(configs: map<string, PyValue>, items: Dict<Item>, free: set<int>, keys: seq<string>, init: Dict<Option<int>>): (r: PortPass)
    requires forall i | 0 <= i < |keys| :: keys[i] in items.entries
    ensures DictValid(init) ==> DictValid(r.ports)
    ensures forall k | k in r.ports.entries :: k in init.entries || k in keys
    decreases |keys|
  {
    if |keys| == 0 then PortPass(init, None)
    else
      var prev := BindKeys(configs, items, free, keys[..|keys| - 1], init);
      if prev.error.Some? then prev
      else
        match BindKey(configs, items, free, Held(prev.ports), keys[|keys| - 1])
        case Raised(e) => PortPass(prev.ports, Some(e))
        case Returned(port) => PortPass(Put(prev.ports, keys[|keys| - 1], port), None)
  }

  /** No two entries of listen_ports hold the same port. */
  predicate PortsDistinct(d: Dict<Option<int>>)
  {
    forall a, b | a in d.entries && b in d.entries && a != b && d.entries[a].Some? && d.entries[b].Some? ::
      d.entries[a].value != d.entries[b].value
  }

  /** Putting a port no entry holds keeps the ports distinct. */
  lemma PutFreshPort(d: Dict<Option<int>>, key: string, port: Option<int>)
    requires PortsDistinct(d) && (port.Some? ==> port.value !in Held(d))
    ensures PortsDistinct(Put(d, key, port))
  {
    var r := Put(d, key, port);
    forall a, b | a in r.entries && b in r.entries && a != b && r.entries[a].Some? && r.entries[b].Some?
      ensures r.entries[a].value != r.entries[b].value
    {
      if a == key {
        assert r.entries[b] == d.entries[b];
      } else if b == key {
        assert r.entries[a] == d.entries[a];
      }
    }
  }

  /** Every key of one pass gets its own port: the pass never hands out a port it already holds. */
  lemma {:induction false} BindKeysDistinct(configs: map<string, PyValue>, items: Dict<Item>, free: set<int>, keys: seq<string>, init: Dict<Option<int>>)
    requires forall i | 0 <= i < |keys| :: keys[i] in items.entries
    requires PortsDistinct(init)
    ensures PortsDistinct(BindKeys(configs, items, free, keys, init).ports)
    decreases |keys|
  {
    if |keys| > 0 {
      var prefix := keys[..|keys| - 1];
      BindKeysDistinct(configs, items, free, prefix, init);
      var prev := BindKeys(configs, items, free, prefix, init);
      if prev.error.None? {
        var r := BindKey(configs, items, free, Held(prev.ports), keys[|keys| - 1]);
        if r.Returned? {
          PutFreshPort(prev.ports, keys[|keys| - 1], r.value);
        }
      }
    }
  }

  /** The value an item takes from its listen_ports entry: the port, or None when the scan found none. */
  function PortValue(port: Option<int>): PyValue
  {
    if port.Some? then PyInt(port.value) else PyNone
  }

  /** The second loop of resolve_all_listen_ports over the first n entries: each item takes its port. */
  function WriteBack(items: Dict<Item>, ports: Dict<Option<int>>, n: nat): (r: Dict<Item>)
    requires n <= |ports.keys| && PortsBound(items, ports, n)
    ensures r.keys == items.keys
    ensures r.entries.Keys == items.entries.Keys
    decreases n
  {
    if n == 0 then items
    else
      SetPort(WriteBack(items, ports, n - 1), ports, ports.keys[n - 1])
  }

  /** Each of the first n listen_ports keys has an entry and names an item. */
  predicate PortsBound(items: Dict<Item>, ports: Dict<Option<int>>, n: nat)
    requires n <= |ports.keys|
  {
    forall i | 0 <= i < n :: ports.keys[i] in ports.entries && ports.keys[i] in items.entries
  }

  /** `self.configurable_items[key].value = port`: the item keeps its type and takes the port. */
  function SetPort(items: Dict<Item>, ports: Dict<Option<int>>, key: string): (r: Dict<Item>)
    requires key in items.entries && key in ports.entries
    ensures r.keys == items.keys && r.entries.Keys == items.entries.Keys
  {
    items.(entries := items.entries[key := items.entries[key].(value := PortValue(ports.entries[key]))])
  }

  /**
   * After the second loop every item with a listen_ports entry holds its
   * port (None when the scan found none), keeping its type; every other
   * item is as it was.
   */
  lemma {:induction false} WriteBackValues(items: Dict<Item>, ports: Dict<Option<int>>, n: nat, k: string)
    requires n <= |ports.keys| && PortsBound(items, ports, n)
    requires k in items.entries
    ensures var r := WriteBack(items, ports, n);
            r.entries[k] == if k in ports.keys[..n] then Item(items.entries[k].vtype, PortValue(ports.entries[k])) else items.entries[k]
    decreases n
  {
    if n > 0 {
      var key := ports.keys[n - 1];
      WriteBackValues(items, ports, n - 1, k);
      assert ports.keys[..n] == ports.keys[..n - 1] + [key];
      if k != key {
        assert (k in ports.keys[..n]) == (k in ports.keys[..n - 1]);
      }
    }
  }

  /** A pass that raised at some key binds nothing after it. */
  lemma {:induction false} BindKeysErrorStays(configs: map<string, PyValue>, items: Dict<Item>, free: set<int>, keys: seq<string>, init: Dict<Option<int>>, m: nat)
    requires forall i | 0 <= i < |keys| :: keys[i] in items.entries
    requires m <= |keys| && BindKeys(configs, items, free, keys[..m], init).error.Some?
    ensures BindKeys(configs, items, free, keys, init) == BindKeys(configs, items, free, keys[..m], init)
    decreases |keys|
  {
    if m < |keys| {
      var prefix := keys[..|keys| - 1];
      assert prefix[..m] == keys[..m];
      BindKeysErrorStays(configs, items, free, prefix, init, m);
    } else {
      assert keys[..m] == keys;
    }
  }

  /** Every item is unset (None) or holds a value of its declared type. */
  predicate WellTyped(items: Dict<Item>)
  {
    forall k | k in items.entries :: items.entries[k].value == PyNone || IsInstance(items.entries[k].value, items.entries[k].vtype)
  }

  /**
   * set: a known key takes a value of its declared type and silently ignores
   * any other; an unknown key goes to the extra configs.
   */
  function SetSpec(items: Dict<Item>, extra: Dict<PyValue>, attr: string, val: PyValue): (r: (Dict<Item>, Dict<PyValue>))
    ensures attr in items.entries && IsInstance(val, items.entries[attr].vtype) ==>
              attr in r.0.entries && r.0.entries[attr] == Item(items.entries[attr].vtype, val) && r.1 == extra
    ensures attr in items.entries && !IsInstance(val, items.entries[attr].vtype) ==> r == (items, extra)
    ensures attr !in items.entries ==> r.0 == items && attr in r.1.entries && r.1.entries[attr] == val
    ensures forall k | k != attr && k in items.entries :: k in r.0.entries && r.0.entries[k] == items.entries[k]
    ensures forall k | k != attr :: (k in r.1.entries <==> k in extra.entries) && (k in extra.entries ==> r.1.entries[k] == extra.entries[k])
    ensures forall k :: k in r.0.entries <==> k in items.entries
    ensures DictValid(items) ==> DictValid(r.0) && r.0.keys == items.keys
    ensures DictValid(extra) ==> DictValid(r.1)
    ensures forall k | k in items.entries :: r.0.entries[k].vtype == items.entries[k].vtype
    ensures WellTyped(items) ==> WellTyped(r.0)
  {
    if attr in items.entries then
      var item := items.entries[attr];
      if IsInstance(val, item.vtype) then (Put(items, attr, item.(value := val)), extra) else (items, extra)
    else (items, Put(extra, attr, val))
  }

  function LogsDir(base: string): string { PathJoin(base, "logs") }
  function StorageDir(base: string): string { PathJoin(base, "data") }

  /** The five directory settings of resolve_storage, in the order it sets them. */
  function StorageSettings(base: string): seq<(string, PyValue)>
  {
    [("etcd_log_path", PyStr(PathJoin(LogsDir(base), "etcd.log"))),
     ("system_log_path", PyStr(LogsDir(base))),
     ("etcd_data_dir", PyStr(PathJoin(StorageDir(base), "etcd.data"))),
     ("local_storage_dir", PyStr(StorageDir(base))),
     ("rocketmq_data_dir", PyStr(PathJoin(StorageDir(base), "rocketmq")))]
  }

  /** resolve_storage's first n set calls on the items and the extra configs. */
  function StorageSteps(items: Dict<Item>, extra: Dict<PyValue>, base: string, n: nat): (r: (Dict<Item>, Dict<PyValue>))
    requires n <= 5
    ensures forall k :: k in r.0.entries <==> k in items.entries
    ensures forall k | k in items.entries :: r.0.entries[k].vtype == items.entries[k].vtype
    ensures DictValid(items) ==> DictValid(r.0) && r.0.keys == items.keys
    ensures DictValid(extra) ==> DictValid(r.1)
  {
    if n == 0 then (items, extra)
    else
      var prev := StorageSteps(items, extra, base, n - 1);
      var (key, val) := StorageSettings(base)[n - 1];
      SetSpec(prev.0, prev.1, key, val)
  }

  /** A directory setting is in place relative to the items it started from. */
  predicate SettingInPlace(r: (Dict<Item>, Dict<PyValue>), orig: Dict<Item>, key: string, val: PyValue)
    requires forall k :: k in r.0.entries <==> k in orig.entries
  {
    (key in orig.entries && orig.entries[key].vtype == StrType ==> r.0.entries[key] == Item(StrType, val))
    && (key in orig.entries && orig.entries[key].vtype != StrType ==> r.0.entries[key] == orig.entries[key])
    && (key !in orig.entries ==> key in r.1.entries && r.1.entries[key] == val)
  }

  /** The five settings name five different keys. */
  lemma StorageKeysDistinct(base: string, a: nat, b: nat)
    requires a < b < 5
    ensures StorageSettings(base)[a].0 != StorageSettings(base)[b].0
  {
    var st := StorageSettings(base);
    if a == 0 && b == 2 {
      assert st[a].0[5] != st[b].0[5];
    } else if a == 3 && b == 4 {
      assert st[a].0[0] != st[b].0[0];
    } else {
      assert st[a].0[0] != st[b].0[0] || |st[a].0| != |st[b].0|;
    }
  }

  /** One call that does not name the key keeps its setting in place. */
  lemma SetKeepsInPlace(prev: (Dict<Item>, Dict<PyValue>), orig: Dict<Item>, attr: string, v: PyValue, key: string, val: PyValue)
    requires forall k :: k in prev.0.entries <==> k in orig.entries
    requires SettingInPlace(prev, orig, key, val) && attr != key
    ensures forall k :: k in SetSpec(prev.0, prev.1, attr, v).0.entries <==> k in orig.entries
    ensures SettingInPlace(SetSpec(prev.0, prev.1, attr, v), orig, key, val)
  {
  }

  /** The call that names the key puts its setting in place. */
  lemma SetPutsInPlace(prev: (Dict<Item>, Dict<PyValue>), orig: Dict<Item>, key: string, val: PyValue)
    requires val.PyStr?
    requires forall k :: k in prev.0.entries <==> k in orig.entries
    requires forall k | k in orig.entries :: prev.0.entries[k].vtype == orig.entries[k].vtype
    requires key in orig.entries ==> prev.0.entries[key] == orig.entries[key]
    ensures forall k :: k in SetSpec(prev.0, prev.1, key, val).0.entries <==> k in orig.entries
    ensures SettingInPlace(SetSpec(prev.0, prev.1, key, val), orig, key, val)
  {
  }

  lemma {:induction false} StorageStepsInPlace(items: Dict<Item>, extra: Dict<PyValue>, base: string, i: nat, n: nat)
    requires i < n <= 5
    ensures SettingInPlace(StorageSteps(items, extra, base, n), items, StorageSettings(base)[i].0, StorageSettings(base)[i].1)
    decreases n
  {
    var st := StorageSettings(base);
    var prev := StorageSteps(items, extra, base, n - 1);
    if n - 1 != i {
      StorageStepsInPlace(items, extra, base, i, n - 1);
      StorageKeysDistinct(base, i, n - 1);
      SetKeepsInPlace(prev, items, st[n - 1].0, st[n - 1].1, st[i].0, st[i].1);
    } else {
      forall j | 0 <= j < i ensures st[j].0 != st[i].0 {
        StorageKeysDistinct(base, j, i);
      }
      StorageStepsOther(items, extra, base, st[i].0, i);
      SetPutsInPlace(prev, items, st[i].0, st[i].1);
    }
  }

  /** Calls that do not name a key leave its item and its extra entry as they were. */
  lemma {:induction false} StorageStepsOther(items: Dict<Item>, extra: Dict<PyValue>, base: string, key: string, n: nat)
    requires n <= 5 && forall j | 0 <= j < n :: StorageSettings(base)[j].0 != key
    ensures var r := StorageSteps(items, extra, base, n);
            (key in items.entries ==> r.0.entries[key] == items.entries[key])
            && (key in r.1.entries <==> key in extra.entries)
            && (key in extra.entries ==> r.1.entries[key] == extra.entries[key])
    decreases n
  {
    if n > 0 {
      StorageStepsOther(items, extra, base, key, n - 1);
    }
  }

  /**
   * After resolve_storage every directory setting is in place: a str item of
   * that name holds the path, an unknown name holds it among the extra
   * configs, and an item of another type keeps its value.
   */
  lemma StorageResolved(items: Dict<Item>, extra: Dict<PyValue>, base: string, i: nat)
    requires i < 5
    ensures SettingInPlace(StorageSteps(items, extra, base, 5), items, StorageSettings(base)[i].0, StorageSettings(base)[i].1)
  {
    StorageStepsInPlace(items, extra, base, i, 5);
  }

  /** The message resolve raises for an item that is still None. */
  function NotResolved(key: string): PyError
  {
    RuntimeError(key + " is still not resolved, please try specify one.")
  }

  /** The position, from i on, of the first item still None, or the number of items when there is none. */
  function FirstUnresolved(items: Dict<Item>, i: nat): (k: nat)
    requires DictValid(items)
    ensures i <= k <= |items.keys| || (k == i && i > |items.keys|)
    ensures forall j | i <= j < k && j < |items.keys| :: items.entries[items.keys[j]].value != PyNone
    ensures k < |items.keys| ==> items.entries[items.keys[k]].value == PyNone
    decreases |items.keys| - i
  {
    if i >= |items.keys| then i
    else if items.entries[items.keys[i]].value == PyNone then i
    else FirstUnresolved(items, i + 1)
  }

  /** Where write_config puts its file: <base>/configs/milvus.yaml. */
  function ConfigFile(base: string): string
  {
    PathJoin(PathJoin(base, "configs"), "milvus.yaml")
  }

  /** write_config's substitution loop over the first n recorded placeholders. */
  function Rendered(text: string, keyMaps: Dict<string>, items: Dict<Item>, n: nat): string
    requires n <= |keyMaps.keys| && DictValid(keyMaps) && Linked(keyMaps, items)
  {
    if n == 0 then text
    else
      var original := keyMaps.keys[n - 1];
      Replace(Rendered(text, keyMaps, items, n - 1), original, GetValueText(items.entries[keyMaps.entries[original]].value))
  }

  /**
   * Substitution puts the value text exactly where the placeholder was, when
   * the placeholder's first character occurs nowhere else in the text.
   */
  lemma RenderAtPlaceholder(pre: string, original: string, post: string, text: string)
    requires |original| > 0
    requires forall i | 0 <= i < |pre| :: pre[i] != original[0]
    requires forall i | 0 <= i < |post| :: post[i] != original[0]
    ensures Replace(pre + original + post, original, text) == pre + text + post
  {
    var parts := [pre, post];
    assert Tokenizer.FreeOf(parts, original[0]) by {
      forall k, j | 0 <= k < |parts| && 0 <= j < |parts[k]| ensures parts[k][j] != original[0] {
        if k == 0 { assert parts[k] == pre; } else { assert parts[k] == post; }
      }
    }
    assert parts[..1] == [pre];
    assert StringUtil.Join(original, parts) == pre + original + post;
    assert StringUtil.Join(text, parts) == pre + text + post;
    Tokenizer.SplitOfJoin(original, parts);
    ReplaceIsJoinOfSplit(pre + original + post, original, text);
  }

  /** The word characters of the key pattern: [a-zA-Z0-9_]. */
  predicate IsWordChar(c: char)
  {
    'a' <= c <= 'z' || 'A' <= c <= 'Z' || '0' <= c <= '9' || c == '_'
  }

  function LeadingSpaces(s: string): (n: nat)
    ensures n <= |s| && (forall i | 0 <= i < n :: s[i] == ' ') && (n < |s| ==> s[n] != ' ')
  {
    if |s| == 0 || s[0] != ' ' then 0 else 1 + LeadingSpaces(s[1..])
  }

  function WordRun(s: string): (n: nat)
    ensures n <= |s| && (forall i | 0 <= i < n :: IsWordChar(s[i])) && (n < |s| ==> !IsWordChar(s[n]))
  {
    if |s| == 0 || !IsWordChar(s[0]) then 0 else 1 + WordRun(s[1..])
  }

  function FirstHash(s: string): (n: nat)
    ensures n <= |s| && (forall i | 0 <= i < n :: s[i] != '#') && (n < |s| ==> s[n] == '#')
  {
    if |s| == 0 || s[0] == '#' then 0 else 1 + FirstHash(s[1..])
  }

  /** A `key: value  # comment` line: the indented key, its indent, the key, and the comment from '#' on. */
  datatype KeyLine = KeyLine(prefixed: string, indent: nat, key: string, comment: string)

  /** `^( *[a-zA-Z0-9_]+):([^#]*)(#.*)?$` against the line without its trailing whitespace. */
  function MatchKeyLine(line: string): (m: Option<KeyLine>)
    ensures m.Some? ==>
              var kl := m.value;
              |kl.key| > 0 && (forall i | 0 <= i < |kl.key| :: IsWordChar(kl.key[i]))
              && IndentedKey(kl.prefixed, kl.indent, kl.key)
              && (kl.comment == [] || kl.comment[0] == '#')
  {
    MatchStripped(RStrip(line))
  }

  /** The key-line pattern against a line already stripped of its trailing whitespace. */
  function MatchStripped(r: string): (m: Option<KeyLine>)
    ensures m.Some? ==>
              var kl := m.value;
              |kl.key| > 0 && (forall i | 0 <= i < |kl.key| :: IsWordChar(kl.key[i]))
              && IndentedKey(kl.prefixed, kl.indent, kl.key)
              && (kl.comment == [] || kl.comment[0] == '#')
  {
    var n := LeadingSpaces(r);
    KeyLineAt(r, n, WordRun(r[n..]))
  }

  /** The rest of the pattern once the leading spaces (n) and the key's word characters (w) are counted. */
  function KeyLineAt(r: string, n: nat, w: nat): (m: Option<KeyLine>)
    requires n + w <= |r| && (forall i | 0 <= i < n :: r[i] == ' ')
    requires forall i | 0 <= i < w :: IsWordChar(r[n..][i])
    ensures m.Some? ==>
              var kl := m.value;
              |kl.key| > 0 && (forall i | 0 <= i < |kl.key| :: IsWordChar(kl.key[i]))
              && IndentedKey(kl.prefixed, kl.indent, kl.key)
              && (kl.comment == [] || kl.comment[0] == '#')
  {
    if w == 0 || n + w >= |r| || r[n + w] != ':' then None
    else
      var rest := r[n + w + 1..];
      var h := FirstHash(rest);
      KeyLineParts(r, n, w, r[n..n + w]);
      Some(KeyLine(r[..n + w], n, r[n..n + w], rest[h..]))
  }

  /** The group `( *[a-zA-Z0-9_]+)`: indent spaces, then the key. */
  predicate IndentedKey(prefixed: string, indent: nat, key: string)
  {
    |prefixed| == indent + |key| && (forall i | 0 <= i < indent :: prefixed[i] == ' ')
    && prefixed[indent..] == key
  }

  lemma KeyLineParts(r: string, n: nat, w: nat, key: string)
    requires n + w <= |r| && key == r[n..n + w]
    requires forall i | 0 <= i < n :: r[i] == ' '
    requires forall i | 0 <= i < w :: IsWordChar(r[n..][i])
    ensures IndentedKey(r[..n + w], n, key)
    ensures forall i | 0 <= i < |key| :: IsWordChar(key[i])
  {
    assert r[..n + w][n..] == key;
    forall i | 0 <= i < |key| ensures IsWordChar(key[i]) {
      assert key[i] == r[n..][i];
    }
  }

  /** A line whose stripped text starts with '#'. */
  predicate IsCommentLine(line: string)
  {
    var t := Strip(line);
    |t| > 0 && t[0] == '#'
  }

  /** The replacement for a key line whose dotted path is an extra key: the value, and the comment kept. */
  function KeyLineText(kl: KeyLine, v: PyValue): string
  {
    var c := Strip(kl.comment);
    if c != "" then kl.prefixed + ": " + Str(v) + " #" + c[1..] else kl.prefixed + ": " + Str(v)
  }

  /** The dotted path of a key line: the keys above it, cut to indent / 2 levels, then its own key. */
  function KeyPath(stack: seq<string>, kl: KeyLine): seq<string>
  {
    var level := kl.indent / 2;
    (if level <= |stack| then stack[..level] else stack) + [kl.key]
  }

  /** One line of update_extra_configs: what it becomes and the key stack after it. */
  function RewriteLine(line: string, stack: seq<string>, extras: Dict<PyValue>): (string, seq<string>)
  {
    if IsCommentLine(line) then (line, stack)
    else
      match MatchKeyLine(line)
      case None => (line, stack)
      case Some(kl) =>
        var path := KeyPath(stack, kl);
        var text := StringUtil.Join(".", path);
        if text in extras.entries then (KeyLineText(kl, extras.entries[text]), path) else (line, path)
  }

  /** update_extra_configs over the lines in order: the output lines and the final key stack. */
  function RewriteAll(lines: seq<string>, extras: Dict<PyValue>): (r: (seq<string>, seq<string>))
    ensures |r.0| == |lines|
    decreases |lines|
  {
    if |lines| == 0 then ([], [])
    else
      var prev := RewriteAll(lines[..|lines| - 1], extras);
      var next := RewriteLine(lines[|lines| - 1], prev.1, extras);
      (prev.0 + [next.0], next.1)
  }

  /** update_extra_configs: the rewritten lines, each followed by the platform's line separator. */
  function UpdateExtraSpec(content: string, extras: Dict<PyValue>, linesep: string): string
  {
    Terminated(RewriteAll(SplitLines(content), extras).0, linesep)
  }

  /** Output line i is line i rewritten under the key stack the lines before it built. */
  lemma {:induction false} RewriteAllAt(lines: seq<string>, extras: Dict<PyValue>, i: nat)
    requires i < |lines|
    ensures RewriteAll(lines, extras).0[i] == RewriteLine(lines[i], RewriteAll(lines[..i], extras).1, extras).0
    ensures RewriteAll(lines[..i + 1], extras).1 == RewriteLine(lines[i], RewriteAll(lines[..i], extras).1, extras).1
    decreases |lines|
  {
    var prefix := lines[..|lines| - 1];
    assert lines[..i + 1][..i] == lines[..i];
    if i < |lines| - 1 {
      assert prefix[..i] == lines[..i] && prefix[..i + 1] == lines[..i + 1];
      RewriteAllAt(prefix, extras, i);
    } else {
      assert lines[..i] == prefix && lines[..i + 1] == lines;
    }
  }

  /** Comment lines and lines that are not `key: value` lines are copied unchanged. */
  lemma LinesKeptUnlessKeyed(lines: seq<string>, extras: Dict<PyValue>, i: nat)
    requires i < |lines| && (IsCommentLine(lines[i]) || MatchKeyLine(lines[i]).None?)
    ensures RewriteAll(lines, extras).0[i] == lines[i]
    ensures RewriteAll(lines[..i + 1], extras).1 == RewriteAll(lines[..i], extras).1
  {
    RewriteAllAt(lines, extras, i);
  }

  /**
   * A key line's dotted path is the key stack cut to indent / 2, then its
   * key; the line becomes `key: value` (keeping its comment) when that path
   * is an extra key and is copied otherwise.
   */
  lemma KeyLineRewritten(lines: seq<string>, extras: Dict<PyValue>, i: nat, kl: KeyLine)
    requires i < |lines| && !IsCommentLine(lines[i]) && MatchKeyLine(lines[i]) == Some(kl)
    ensures var path := RewriteAll(lines[..i + 1], extras).1;
            var text := StringUtil.Join(".", path);
            path == KeyPath(RewriteAll(lines[..i], extras).1, kl)
            && (text in extras.entries ==> RewriteAll(lines, extras).0[i] == KeyLineText(kl, extras.entries[text]))
            && (text !in extras.entries ==> RewriteAll(lines, extras).0[i] == lines[i])
  {
    RewriteAllAt(lines, extras, i);
  }

  lemma NoExtrasKeepsLine(line: string, stack: seq<string>, extras: Dict<PyValue>)
    requires extras.entries == map[]
    ensures RewriteLine(line, stack, extras).0 == line
  {
    if !IsCommentLine(line) && MatchKeyLine(line).Some? {
      assert StringUtil.Join(".", KeyPath(stack, MatchKeyLine(line).value)) !in extras.entries;
    }
  }

  /** With no extra configs every line is copied. */
  lemma NoExtrasKeepsLines(lines: seq<string>, extras: Dict<PyValue>)
    requires extras.entries == map[]
    ensures RewriteAll(lines, extras).0 == lines
  {
    var out := RewriteAll(lines, extras).0;
    forall i | 0 <= i < |lines| ensures out[i] == lines[i] {
      RewriteAllAt(lines, extras, i);
      NoExtrasKeepsLine(lines[i], RewriteAll(lines[..i], extras).1, extras);
    }
  }

  /** With no extra configs, text written one line per "\n" comes back unchanged. */
  lemma NoExtrasKeepsContent(lines: seq<string>, extras: Dict<PyValue>)
    requires extras.entries == map[]
    requires forall i | 0 <= i < |lines| :: NoLineBreak(lines[i])
    ensures UpdateExtraSpec(Terminated(lines, "\n"), extras, "\n") == Terminated(lines, "\n")
  {
    SplitLinesOfTerminated(lines);
    NoExtrasKeepsLines(lines, extras);
  }

  lemma RecordAllStep(rs: seq<LineResult>, init: Parsed, i: nat)
    requires i < |rs|
    ensures RecordAll(rs[..i + 1], init) == Record(RecordAll(rs[..i], init), rs[i])
  {
    assert rs[..i + 1][..i] == rs[..i];
  }

  lemma BindKeysStep(configs: map<string, PyValue>, items: Dict<Item>, free: set<int>, keys: seq<string>, init: Dict<Option<int>>, i: nat, ports: Dict<Option<int>>)
    requires forall j | 0 <= j < |keys| :: keys[j] in items.entries
    requires i < |keys| && BindKeys(configs, items, free, keys[..i], init) == PortPass(ports, None)
    ensures BindKeys(configs, items, free, keys[..i + 1], init)
            == match BindKey(configs, items, free, Held(ports), keys[i])
               case Raised(e) => PortPass(ports, Some(e))
               case Returned(port) => PortPass(Put(ports, keys[i], port), None)
  {
    assert keys[..i + 1][..i] == keys[..i];
  }

  lemma StorageStep(items: Dict<Item>, extra: Dict<PyValue>, base: string, n: nat)
    requires n < 5
    ensures StorageSteps(items, extra, base, n + 1)
            == SetSpec(StorageSteps(items, extra, base, n).0, StorageSteps(items, extra, base, n).1,
                       StorageSettings(base)[n].0, StorageSettings(base)[n].1)
  {
  }

  lemma RewriteAllStep(lines: seq<string>, extras: Dict<PyValue>, i: nat)
    requires i < |lines|
    ensures RewriteAll(lines[..i + 1], extras)
            == (RewriteAll(lines[..i], extras).0 + [RewriteLine(lines[i], RewriteAll(lines[..i], extras).1, extras).0],
                RewriteLine(lines[i], RewriteAll(lines[..i], extras).1, extras).1)
  {
    assert lines[..i + 1][..i] == lines[..i];
  }

  lemma WriteBackStep(items: Dict<Item>, ports: Dict<Option<int>>, j: nat)
    requires j < |ports.keys| && PortsBound(items, ports, |ports.keys|)
    ensures ports.keys[j] in WriteBack(items, ports, j).entries && ports.keys[j] in ports.entries
    ensures WriteBack(items, ports, j + 1) == SetPort(WriteBack(items, ports, j), ports, ports.keys[j])
  {
  }

  /** resolve's pass never binds one port for two `_port` items. */
  lemma ResolvedPortsDistinct(configs: map<string, PyValue>, items: Dict<Item>, free: set<int>)
    requires DictValid(items)
    ensures PortsDistinct(PortsPass(configs, items, free).ports)
  {
    BindKeysDistinct(configs, items, free, PortKeys(items.keys), EmptyDict());
  }

  /**
   * MilvusServer.prepend_path_to_envs: the variable becomes the directory,
   * ':', then the value the process environment had (or nothing).
   */
  function PrependPathToEnvs(envs: map<string, string>, environ: map<string, string>, name: string, val: string): (r: map<string, string>)
    ensures forall k | k != name :: (k in r <==> k in envs) && (k in envs ==> r[k] == envs[k])
  {
    envs[name := val + ":" + (if name in environ then environ[name] else "")]
  }

  /** The new directory comes first, and the previous search path follows the ':' unchanged. */
  lemma PrependedPathKeepsOld(envs: map<string, string>, environ: map<string, string>, name: string, val: string)
    ensures var r := PrependPathToEnvs(envs, environ, name, val);
            name in r && |r[name]| > |val| && r[name][..|val|] == val && r[name][|val|] == ':'
            && (name in environ ==> r[name][|val| + 1..] == environ[name])
            && (name !in environ ==> r[name][|val| + 1..] == "")
  {
    var r := PrependPathToEnvs(envs, environ, name, val);
    var rest := if name in environ then environ[name] else "";
    assert r[name] == val + ":" + rest;
    assert r[name][..|val|] == val;
    assert r[name][|val| + 1..] == rest;
  }

  lemma {:induction false} LeadingSpacesOf(s: string, n: nat)
    requires n <= |s| && (forall i | 0 <= i < n :: s[i] == ' ') && (n < |s| ==> s[n] != ' ')
    ensures LeadingSpaces(s) == n
  {
    if n > 0 {
      LeadingSpacesOf(s[1..], n - 1);
    }
  }

  lemma {:induction false} WordRunOf(s: string, n: nat)
    requires n <= |s| && (forall i | 0 <= i < n :: IsWordChar(s[i])) && (n < |s| ==> !IsWordChar(s[n]))
    ensures WordRun(s) == n
  {
    if n > 0 {
      WordRunOf(s[1..], n - 1);
    }
  }

  lemma {:induction false} FirstHashOf(s: string, n: nat)
    requires n <= |s| && (forall i | 0 <= i < n :: s[i] != '#') && (n < |s| ==> s[n] == '#')
    ensures FirstHash(s) == n
  {
    if n > 0 {
      FirstHashOf(s[1..], n - 1);
    }
  }

  /** The three scans of MatchKeyLine over n spaces, w word characters, ':' and a value with no '#'. */
  lemma KeyLineScans(line: string, n: nat, w: nat)
    requires 0 < w && n + w < |line|
    requires forall i | 0 <= i < n :: line[i] == ' '
    requires forall i | n <= i < n + w :: IsWordChar(line[i])
    requires line[n + w] == ':'
    requires forall i | n + w < i < |line| :: line[i] != '#'
    ensures LeadingSpaces(line) == n && WordRun(line[n..]) == w
    ensures FirstHash(line[n + w + 1..]) == |line| - (n + w + 1)
  {
    assert IsWordChar(line[n]);
    LeadingSpacesOf(line, n);
    var s := line[n..];
    forall i | 0 <= i < w ensures IsWordChar(s[i]) {
      assert s[i] == line[n + i];
    }
    assert s[w] == line[n + w];
    WordRunOf(s, w);
    var rest := line[n + w + 1..];
    forall i | 0 <= i < |rest| ensures rest[i] != '#' {
      assert rest[i] == line[n + w + 1 + i];
    }
    FirstHashOf(rest, |rest|);
  }

  /**
   * A line of n spaces, a run of w word characters, ':' and a value with no
   * '#', not ending in whitespace, is recognised with that indent and key
   * and no comment.
   */
  lemma KeyLineRecognised(line: string, n: nat, w: nat)
    requires 0 < w && n + w < |line|
    requires forall i | 0 <= i < n :: line[i] == ' '
    requires forall i | n <= i < n + w :: IsWordChar(line[i])
    requires line[n + w] == ':'
    requires forall i | n + w < i < |line| :: line[i] != '#'
    requires !IsSpace(line[|line| - 1])
    ensures MatchKeyLine(line) == Some(KeyLine(line[..n + w], n, line[n..n + w], ""))
  {
    assert RStrip(line) == line;
    KeyLineScans(line, n, w);
    KeyLineMatched(line, n, w);
  }

  /** MatchKeyLine on a line its scans split into n spaces, a w-character key, ':' and a value with no '#'. */
  lemma KeyLineMatched(line: string, n: nat, w: nat)
    requires RStrip(line) == line && 0 < w && n + w < |line| && line[n + w] == ':'
    requires LeadingSpaces(line) == n && WordRun(line[n..]) == w
    requires FirstHash(line[n + w + 1..]) == |line| - (n + w + 1)
    ensures MatchKeyLine(line) == Some(KeyLine(line[..n + w], n, line[n..n + w], ""))
  {
    var rest := line[n + w + 1..];
    assert rest[|rest|..] == "";
    assert KeyLineAt(line, n, w) == Some(KeyLine(line[..n + w], n, line[n..n + w], ""));
    assert MatchStripped(line) == KeyLineAt(line, n, w);
  }

  /** The tables are well formed, every placeholder names an item, and every bound port belongs to an item. */
  predicate ConfigValid(keyMaps: Dict<string>, items: Dict<Item>, extra: Dict<PyValue>, ports: Dict<Option<int>>)
  {
    DictValid(keyMaps) && DictValid(items) && DictValid(extra) && DictValid(ports)
    && Linked(keyMaps, items)
    && (forall k | k in ports.entries :: k in items.entries)
  }

  /** Binding the `_port` items keeps the config well formed, whether or not the pass raised. */
  lemma PortsValid(configs: map<string, PyValue>, keyMaps: Dict<string>, items: Dict<Item>, extra: Dict<PyValue>, free: set<int>, init: Dict<Option<int>>)
    requires ConfigValid(keyMaps, items, extra, init)
    ensures ConfigValid(keyMaps, items, extra, BindKeys(configs, items, free, PortKeys(items.keys), init).ports)
    ensures forall i | 0 <= i < |PortKeys(items.keys)| :: PortKeys(items.keys)[i] in items.entries
  {
  }

  /** resolve_all_listen_ports run on an emptied listen_ports, as resolve runs it. */
  function PortsPass(configs: map<string, PyValue>, items: Dict<Item>, free: set<int>): (pass: PortPass)
    requires DictValid(items)
    ensures DictValid(pass.ports) && forall k | k in pass.ports.entries :: k in items.entries
  {
    BindKeys(configs, items, free, PortKeys(items.keys), EmptyDict())
  }

  /** Parsing without an exception keeps the config well formed. */
  lemma ParsedValid(rs: seq<LineResult>, init: Parsed, extra: Dict<PyValue>, ports: Dict<Option<int>>)
    requires ConfigValid(init.keyMaps, init.items, extra, ports) && RecordAll(rs, init).error.None?
    ensures ConfigValid(RecordAll(rs, init).keyMaps, RecordAll(rs, init).items, extra, ports)
  {
    RecordAllLinked(rs, init);
  }

  /** The server config: its keyword arguments, its template and the tables parsing and resolving fill in. */
  class MilvusServerConfig {
    var configs: map<string, PyValue>
    var templateText: string
    /** Placeholder text, such as "{{ proxy_port(int): 19530 }}", to its key. */
    var configKeyMaps: Dict<string>
    /** Key to [type, value]. */
    var configurableItems: Dict<Item>
    /** Settings set for keys the template does not declare. */
    var extraConfigs: Dict<PyValue>
    /** `_port` key to the port bound for it (None when the scan found none). */
    var listenPorts: Dict<Option<int>>
    var baseDataDir: string

    /** The tables are well formed, every placeholder names an item, and every bound port belongs to an item. */
    predicate Valid()
      reads this
    {
      ConfigValid(configKeyMaps, configurableItems, extraConfigs, listenPorts)
    }

    /** __init__ before parse_template: templateText is what load_template read from the template file. */
    constructor(configs: map<string, PyValue>, templateText: string)
      ensures this.configs == configs && this.templateText == templateText && baseDataDir == ""
      ensures configKeyMaps == EmptyDict() && configurableItems == EmptyDict()
      ensures extraConfigs == EmptyDict() && listenPorts == EmptyDict()
      ensures Valid()
    {
      this.configs := configs;
      this.templateText := templateText;
      configKeyMaps := EmptyDict();
      configurableItems := EmptyDict();
      extraConfigs := EmptyDict();
      listenPorts := EmptyDict();
      baseDataDir := "";
    }

    /** __init__: the fields set up and the template parsed; the exception parsing raised, if any. */
    static method New(configs: map<string, PyValue>, templateText: string) returns (c: MilvusServerConfig, error: Option<PyError>)
      ensures fresh(c) && c.configs == configs && c.templateText == templateText
      ensures Parsed(c.configKeyMaps, c.configurableItems, error) == ParseTemplateSpec(templateText, Parsed(EmptyDict(), EmptyDict(), None))
      ensures c.extraConfigs == EmptyDict() && c.listenPorts == EmptyDict()
      ensures error.None? ==> c.Valid()
    {
      c := new MilvusServerConfig(configs, templateText);
      error := c.ParseTemplate();
    }

    /** parse_template: every line of the template recorded in turn, stopping at the first exception. */
    method ParseTemplate() returns (error: Option<PyError>)
      modifies this
      ensures Parsed(configKeyMaps, configurableItems, error)
              == ParseTemplateSpec(templateText, Parsed(old(configKeyMaps), old(configurableItems), None))
      ensures configs == old(configs) && templateText == old(templateText) && baseDataDir == old(baseDataDir)
      ensures extraConfigs == old(extraConfigs) && listenPorts == old(listenPorts)
      ensures old(Valid()) && error.None? ==> Valid()
    {
      var lines := Split(templateText, "\n");
      ghost var init := Parsed(configKeyMaps, configurableItems, None);
      ghost var wasValid := Valid();
      configKeyMaps, configurableItems, error := ParseLines(lines, configKeyMaps, configurableItems);
      if wasValid && error.None? {
        ParsedValid(LineResults(lines), init, extraConfigs, listenPorts);
      }
    }

    /** parse_template's loop: each line's placeholder recorded, stopping at the first exception. */
    static method ParseLines(lines: seq<string>, keyMaps0: Dict<string>, items0: Dict<Item>)
      returns (keyMaps: Dict<string>, items: Dict<Item>, error: Option<PyError>)
      ensures Parsed(keyMaps, items, error) == RecordAll(LineResults(lines), Parsed(keyMaps0, items0, None))
    {
      var rs := LineResults(lines);
      keyMaps, items := keyMaps0, items0;
      ghost var init := Parsed(keyMaps, items, None);
      var i := 0;
      while i < |lines|
        invariant i <= |lines|
        invariant Parsed(keyMaps, items, None) == RecordAll(rs[..i], init)
      {
        RecordAllStep(rs, init, i);
        match rs[i] {
          case NoPlaceholder =>
          case Declared(original, key, item) =>
            keyMaps := Put(keyMaps, original, key);
            items := Put(items, key, item);
          case Rejected(e) =>
            ErrorStays(rs, init, i + 1);
            return keyMaps, items, Some(e);
          case ValueRejected(original, key, e) =>
            keyMaps := Put(keyMaps, original, key);
            ErrorStays(rs, init, i + 1);
            return keyMaps, items, Some(e);
        }
        i := i + 1;
      }
      assert rs[..i] == rs;
      error := None;
    }

    /** set. */
    method Set(attr: string, val: PyValue)
      modifies this
      ensures (configurableItems, extraConfigs) == SetSpec(old(configurableItems), old(extraConfigs), attr, val)
      ensures configs == old(configs) && templateText == old(templateText) && baseDataDir == old(baseDataDir)
      ensures configKeyMaps == old(configKeyMaps) && listenPorts == old(listenPorts)
      ensures old(Valid()) ==> Valid()
    {
      if attr in configurableItems.entries {
        var item := configurableItems.entries[attr];
        if IsInstance(val, item.vtype) {
          configurableItems := Put(configurableItems, attr, item.(value := val));
        }
      } else {
        extraConfigs := Put(extraConfigs, attr, val);
      }
    }

    /** resolve_port: the first bindable port of [portStart, portStart + 10000) that no entry of listen_ports holds. */
    method ResolvePort(portStart: int, free: set<int>) returns (port: Option<int>)
      ensures port == FirstFree(portStart, 0, free, Held(listenPorts))
    {
      port := ScanPorts(portStart, free, Held(listenPorts));
    }

    /** resolve_port's loop over the ports used_ports does not hold. */
    static method ScanPorts(portStart: int, free: set<int>, used: set<int>) returns (port: Option<int>)
      ensures port == FirstFree(portStart, 0, free, used)
    {
      var i: nat := 0;
      while i < PORT_SCAN_WIDTH
        invariant i <= PORT_SCAN_WIDTH
        invariant FirstFree(portStart, 0, free, used) == FirstFree(portStart, i, free, used)
      {
        var p := portStart + i;
        if p !in used && Bindable(p, free, used) {
          return Some(p);
        }
        i := i + 1;
      }
      return None;
    }

    /** cleanup_listen_ports: the probe sockets closed and listen_ports emptied. */
    method CleanupListenPorts()
      modifies this
      ensures listenPorts == EmptyDict()
      ensures configs == old(configs) && templateText == old(templateText) && baseDataDir == old(baseDataDir)
      ensures configKeyMaps == old(configKeyMaps) && configurableItems == old(configurableItems)
      ensures extraConfigs == old(extraConfigs)
      ensures old(Valid()) ==> Valid()
    {
      listenPorts := EmptyDict();
    }

    /**
     * resolve_all_listen_ports: a port for every `_port` item in turn, then
     * every item takes the port bound for it. The first failure raises and
     * leaves the items as they were.
     */
    method ResolveAllListenPorts(free: set<int>) returns (error: Option<PyError>)
      requires Valid()
      modifies this
      ensures var pass := BindKeys(configs, old(configurableItems), free, PortKeys(old(configurableItems).keys), old(listenPorts));
              listenPorts == pass.ports && error == pass.error
              && configurableItems == if error.None? then WriteBack(old(configurableItems), pass.ports, |pass.ports.keys|)
                                      else old(configurableItems)
      ensures configs == old(configs) && templateText == old(templateText) && baseDataDir == old(baseDataDir)
      ensures configKeyMaps == old(configKeyMaps) && extraConfigs == old(extraConfigs)
      ensures Valid()
    {
      error := BindAllPorts(free);
      if error.None? {
        WriteBackPorts();
      }
    }

    /** resolve_all_listen_ports' first loop: a port for every `_port` item in turn, stopping at the first failure. */
    method BindAllPorts(free: set<int>) returns (error: Option<PyError>)
      requires Valid()
      modifies this
      ensures configs == old(configs) && templateText == old(templateText) && baseDataDir == old(baseDataDir)
      ensures configKeyMaps == old(configKeyMaps) && extraConfigs == old(extraConfigs)
      ensures configurableItems == old(configurableItems)
      ensures Valid()
      ensures var pass := BindKeys(configs, configurableItems, free, PortKeys(configurableItems.keys), old(listenPorts));
              listenPorts == pass.ports && error == pass.error
    {
      PortsValid(configs, configKeyMaps, configurableItems, extraConfigs, free, listenPorts);
      listenPorts, error := BindAll(configs, configurableItems, free, PortKeys(configurableItems.keys), listenPorts);
    }

    /** The loop of BindAllPorts on the values it reads: listen_ports as the loop leaves it, and the exception. */
    static method BindAll(configs: map<string, PyValue>, items: Dict<Item>, free: set<int>, keys: seq<string>, init: Dict<Option<int>>)
      returns (ports: Dict<Option<int>>, error: Option<PyError>)
      requires forall i | 0 <= i < |keys| :: keys[i] in items.entries
      ensures PortPass(ports, error) == BindKeys(configs, items, free, keys, init)
    {
      ports := init;
      var i := 0;
      while i < |keys|
        invariant i <= |keys|
        invariant BindKeys(configs, items, free, keys[..i], init) == PortPass(ports, None)
      {
        BindKeysStep(configs, items, free, keys, init, i, ports);
        var r := BindOne(configs, items, free, Held(ports), keys[i]);
        if r.Raised? {
          BindKeysErrorStays(configs, items, free, keys, init, i + 1);
          return ports, Some(r.error);
        }
        ports := Put(ports, keys[i], r.value);
        i := i + 1;
      }
      assert keys[..i] == keys;
      return ports, None;
    }

    /** The body of resolve_all_listen_ports' first loop for one key: the port it binds, or the exception. */
    static method BindOne(configs: map<string, PyValue>, items: Dict<Item>, free: set<int>, held: set<int>, key: string)
      returns (r: Outcome<Option<int>>)
      requires key in items.entries
      ensures r == BindKey(configs, items, free, held, key)
    {
      if key in configs {
        var n := IntOfValue(configs[key]);
        if n.Raised? {
          return Raised(n.error);
        }
        if !Bindable(n.value, free, held) {
          return Raised(BindFailed(key, n.value));
        }
        return Returned(Some(n.value));
      } else {
        var d := items.entries[key].value;
        var start := IntOfValue(if Truthy(d) then d else PyInt(RANDOM_PORT_START));
        if start.Raised? {
          return Raised(start.error);
        }
        var port := ScanPorts(start.value, free, held);
        return Returned(port);
      }
    }

    /** resolve_all_listen_ports' second loop: every item in listen_ports takes its port. */
    method WriteBackPorts()
      requires DictValid(listenPorts) && forall k | k in listenPorts.entries :: k in configurableItems.entries
      modifies this
      ensures listenPorts == old(listenPorts)
      ensures configurableItems == WriteBack(old(configurableItems), listenPorts, |listenPorts.keys|)
      ensures configs == old(configs) && templateText == old(templateText) && baseDataDir == old(baseDataDir)
      ensures configKeyMaps == old(configKeyMaps) && extraConfigs == old(extraConfigs)
    {
      configurableItems := WriteBackAll(configurableItems, listenPorts);
    }

    static method WriteBackAll(items0: Dict<Item>, ports: Dict<Option<int>>) returns (items: Dict<Item>)
      requires PortsBound(items0, ports, |ports.keys|)
      ensures items == WriteBack(items0, ports, |ports.keys|)
    {
      items := items0;
      var j := 0;
      while j < |ports.keys|
        invariant j <= |ports.keys|
        invariant items == WriteBack(items0, ports, j)
      {
        var key := ports.keys[j];
        WriteBackStep(items0, ports, j);
        items := SetPort(items, ports, key);
        j := j + 1;
      }
    }

    /** resolve_storage: the data directory (the absolute path of configs["data_dir"] or the default) and its five settings. */
    method ResolveStorage(dataDir: string)
      modifies this
      ensures baseDataDir == dataDir
      ensures (configurableItems, extraConfigs) == StorageSteps(old(configurableItems), old(extraConfigs), dataDir, 5)
      ensures configs == old(configs) && templateText == old(templateText)
      ensures configKeyMaps == old(configKeyMaps) && listenPorts == old(listenPorts)
      ensures old(Valid()) ==> Valid()
    {
      baseDataDir := dataDir;
      ghost var items0 := configurableItems;
      ghost var extra0 := extraConfigs;
      var logs := PathJoin(dataDir, "logs");
      var storage := PathJoin(dataDir, "data");
      StorageStep(items0, extra0, dataDir, 0);
      Set("etcd_log_path", PyStr(PathJoin(logs, "etcd.log")));
      StorageStep(items0, extra0, dataDir, 1);
      Set("system_log_path", PyStr(logs));
      StorageStep(items0, extra0, dataDir, 2);
      Set("etcd_data_dir", PyStr(PathJoin(storage, "etcd.data")));
      StorageStep(items0, extra0, dataDir, 3);
      Set("local_storage_dir", PyStr(storage));
      StorageStep(items0, extra0, dataDir, 4);
      Set("rocketmq_data_dir", PyStr(PathJoin(storage, "rocketmq")));
    }

    /** resolve's check: the position of the first item still None, or the number of items. */
    method FindUnresolved() returns (k: nat)
      requires DictValid(configurableItems)
      ensures k == FirstUnresolved(configurableItems, 0)
    {
      k := 0;
      while k < |configurableItems.keys|
        invariant k <= |configurableItems.keys|
        invariant FirstUnresolved(configurableItems, 0) == FirstUnresolved(configurableItems, k)
      {
        if configurableItems.entries[configurableItems.keys[k]].value == PyNone {
          return;
        }
        k := k + 1;
      }
    }

    /**
     * resolve: ports bound and written back, the storage directories set,
     * every item checked for a value, the probe sockets closed and the
     * config written. Returns the exception, or the config file and its
     * content.
     */
    method Resolve(free: set<int>, dataDir: string, linesep: string) returns (error: Option<PyError>, configFile: string, content: string)
      requires Valid()
      modifies this
      ensures configs == old(configs) && templateText == old(templateText) && configKeyMaps == old(configKeyMaps)
      ensures Valid()
      ensures var pass := PortsPass(configs, old(configurableItems), free);
              pass.error.Some? ==>
                error == pass.error && listenPorts == pass.ports
                && configurableItems == old(configurableItems) && extraConfigs == old(extraConfigs)
      ensures var pass := PortsPass(configs, old(configurableItems), free);
              pass.error.None? ==>
                baseDataDir == dataDir
                && (configurableItems, extraConfigs)
                   == StorageSteps(WriteBack(old(configurableItems), pass.ports, |pass.ports.keys|), old(extraConfigs), dataDir, 5)
      ensures var pass := PortsPass(configs, old(configurableItems), free);
              var k := FirstUnresolved(configurableItems, 0);
              pass.error.None? && k < |configurableItems.keys| ==>
                error == Some(NotResolved(configurableItems.keys[k])) && listenPorts == pass.ports
      ensures var pass := PortsPass(configs, old(configurableItems), free);
              var k := FirstUnresolved(configurableItems, 0);
              pass.error.None? && k >= |configurableItems.keys| ==>
                error.None? && listenPorts == EmptyDict() && configFile == ConfigFile(dataDir)
                && content == UpdateExtraSpec(Rendered(templateText, configKeyMaps, configurableItems, |configKeyMaps.keys|), extraConfigs, linesep)
    {
      CleanupListenPorts();
      error := ResolveAllListenPorts(free);
      if error.Some? {
        return error, "", "";
      }
      ResolveStorage(dataDir);
      var k := FindUnresolved();
      if k < |configurableItems.keys| {
        return Some(NotResolved(configurableItems.keys[k])), "", "";
      }
      CleanupListenPorts();
      configFile, content := WriteConfig(linesep);
    }

    /** update_extra_configs: each line rewritten under the key stack of the lines before it. */
    method UpdateExtraConfigs(content: string, linesep: string) returns (newContent: string)
      requires DictValid(extraConfigs)
      ensures newContent == UpdateExtraSpec(content, extraConfigs, linesep)
    {
      var lines := SplitLines(content);
      var stack: seq<string> := [];
      newContent := "";
      var i := 0;
      while i < |lines|
        invariant i <= |lines|
        invariant newContent == Terminated(RewriteAll(lines[..i], extraConfigs).0, linesep)
        invariant stack == RewriteAll(lines[..i], extraConfigs).1
      {
        RewriteAllStep(lines, extraConfigs, i);
        var line;
        line, stack := RewriteOne(extraConfigs, lines[i], stack);
        newContent := newContent + line + linesep;
        i := i + 1;
      }
      assert lines[..i] == lines;
    }

    /** The body of update_extra_configs' loop: one line and the key stack after it. */
    static method RewriteOne(extras: Dict<PyValue>, line: string, stack: seq<string>) returns (out: string, next: seq<string>)
      requires DictValid(extras)
      ensures (out, next) == RewriteLine(line, stack, extras)
    {
      out, next := line, stack;
      if !IsCommentLine(line) {
        var m := MatchKeyLine(line);
        if m.Some? {
          next := KeyPath(stack, m.value);
          out := RewriteKeyLine(extras, line, m.value, StringUtil.Join(".", next));
        }
      }
    }

    /** The loop over the extra configs for one key line: the last extra key equal to the path rewrites it. */
    static method RewriteKeyLine(extras: Dict<PyValue>, line: string, kl: KeyLine, text: string) returns (out: string)
      requires DictValid(extras)
      ensures out == if text in extras.entries then KeyLineText(kl, extras.entries[text]) else line
    {
      var hit: Option<PyValue> := None;
      var j := 0;
      while j < |extras.keys|
        invariant j <= |extras.keys|
        invariant hit == if text in extras.keys[..j] then Some(extras.entries[text]) else None
      {
        if extras.keys[j] == text {
          hit := Some(extras.entries[text]);
        }
        assert extras.keys[..j + 1] == extras.keys[..j] + [extras.keys[j]];
        j := j + 1;
      }
      assert extras.keys[..j] == extras.keys;
      out := if hit.Some? then KeyLineText(kl, hit.value) else line;
    }

    /** write_config's loop: every recorded placeholder replaced by its item's value text. */
    static method Render(text: string, keyMaps: Dict<string>, items: Dict<Item>) returns (content: string)
      requires DictValid(keyMaps) && Linked(keyMaps, items)
      ensures content == Rendered(text, keyMaps, items, |keyMaps.keys|)
    {
      content := text;
      var i := 0;
      while i < |keyMaps.keys|
        invariant i <= |keyMaps.keys|
        invariant content == Rendered(text, keyMaps, items, i)
      {
        var original := keyMaps.keys[i];
        var value := items.entries[keyMaps.entries[original]].value;
        content := Replace(content, original, GetValueText(value));
        i := i + 1;
      }
    }

    /**
     * write_config: every recorded placeholder replaced by its item's value
     * text, then the extra configs applied; the path it writes to and the
     * content written.
     */
    method WriteConfig(linesep: string) returns (configFile: string, content: string)
      requires Valid()
      ensures configFile == ConfigFile(baseDataDir)
      ensures content == UpdateExtraSpec(Rendered(templateText, configKeyMaps, configurableItems, |configKeyMaps.keys|), extraConfigs, linesep)
    {
      configFile := PathJoin(PathJoin(baseDataDir, "configs"), "milvus.yaml");
      content := Render(templateText, configKeyMaps, configurableItems);
      content := UpdateExtraConfigs(content, linesep);
    }
  }
}
