/** A channel with several upstream keys: one string of keys, and maps from key index to
    status, disabling time and disabling reason. The management actions are proved to be
    operations on a list of entries. Both the string and the indices have to survive the
    save, and the exact conditions for that are stated. */
module MultiKeys {
  import opened Lists
  import opened Options
  import opened Text

  const ENABLED := 1
  const MANUALLY_DISABLED := 2
  const AUTO_DISABLED := 3

  /** The raw elements of a JSON array, if the text is one. */
  type JsonArray = string -> Option<seq<string>>

  function Bracketed(json: JsonArray, key: string): Option<seq<string>> {
    var t := TrimSpace(key);
    if t != "" && t[0] == '[' then json(t) else None
  }

  /** `GetKeys`. */
  function GetKeys(json: JsonArray, key: string): seq<string> {
    if key == "" then []
    else if Bracketed(json, key).Some? then Bracketed(json, key).value
    else Fields(key, '\n')
  }

  /** The key count of `Update`, which does not take an empty array for an answer. */
  function CountKeys(json: JsonArray, key: string): nat {
    if key == "" then 0
    else if Bracketed(json, key).Some? && Bracketed(json, key).value != [] then |Bracketed(json, key).value|
    else |Fields(key, '\n')|
  }

  /** The recorded size is the number of keys except for an empty JSON array. */
  lemma SizeIsKeyCountIff(json: JsonArray, key: string)
    ensures CountKeys(json, key) == |GetKeys(json, key)| <==> (key == "" || Bracketed(json, key) != Some([]))
    ensures GetKeys(json, key) != [] ==> CountKeys(json, key) == |GetKeys(json, key)|
  {
  }

  // What the next load sees

  /** `Updates` with a struct leaves a column alone when its new value is empty. */
  function SavedKey(before: string, key: string): string {
    if key == "" then before else key
  }

  predicate Reparses(json: JsonArray, keys: seq<string>) {
    var key := Join(keys, '\n');
    key != "" && match Bracketed(json, key)
      case Some(parts) => parts == keys
      case None => Storable(keys, '\n')
  }

  /** Whether a list of keys that is about to be written can be read back. */
  predicate Saves(json: JsonArray, before: string, keys: seq<string>) {
    if Join(keys, '\n') == "" then GetKeys(json, before) == keys else Reparses(json, keys)
  }

  lemma SavedKeysIff(json: JsonArray, before: string, keys: seq<string>)
    ensures GetKeys(json, SavedKey(before, Join(keys, '\n'))) == keys <==> Saves(json, before, keys)
  {
    FieldsJoinIff(keys, '\n');
  }

  /** Deleting from a list of plain, non-empty keys leaves one that can be read back. */
  lemma PlainKeysSave(json: JsonArray, before: string, keys: seq<string>)
    requires keys != [] && Bracketed(json, Join(keys, '\n')).None?
    requires forall i :: 0 <= i < |keys| ==> keys[i] != "" && '\n' !in keys[i]
    ensures Saves(json, before, keys)
  {
    JoinLast(keys, '\n');
  }

  /** An empty key that becomes the first is lost, and its mark lands on the next key:
      deleting `a` from `a`, "" and `b` with "" disabled disables `b`. */
  lemma EmptyKeyShiftsMarks(json: JsonArray, a: string, b: string, before: string)
    requires Tidy(b) && b[0] != '[' && '\n' !in b
    ensures
      var es := Table([a, "", b], Marks(map[1 := MANUALLY_DISABLED], map[], map[]));
      var kept := RemoveAt(es, 0);
      var m := Marks(map[0 := MANUALLY_DISABLED], map[], map[]);
      Table(KeysOf(kept), m) == kept && !Saves(json, before, KeysOf(kept)) &&
      Table(GetKeys(json, SavedKey(before, Join(KeysOf(kept), '\n'))), m) ==
        [Entry(b, MANUALLY_DISABLED, 0, "")]
  {
    hide GetKeys, Join, Tidy, Reparses, Table, RemoveAt, KeysOf;
    LeadingEmptyKey(json, b);
    FirstRemoved(a, b);
  }

  lemma FirstRemoved(a: string, b: string)
    ensures
      var kept := RemoveAt(Table([a, "", b], Marks(map[1 := MANUALLY_DISABLED], map[], map[])), 0);
      var m := Marks(map[0 := MANUALLY_DISABLED], map[], map[]);
      KeysOf(kept) == ["", b] && Table(["", b], m) == kept && Table([b], m) == [Entry(b, MANUALLY_DISABLED, 0, "")]
  {
    var es := Table([a, "", b], Marks(map[1 := MANUALLY_DISABLED], map[], map[]));
    assert RemoveAt(es, 0) == [es[1], es[2]];
  }

  lemma LeadingEmptyKey(json: JsonArray, b: string)
    requires Tidy(b) && b[0] != '[' && '\n' !in b
    ensures Join(["", b], '\n') == ['\n'] + b
    ensures GetKeys(json, ['\n'] + b) == [b] && !Reparses(json, ["", b])
  {
    hide Join, Trim, Split, Fields, Storable, Bracketed;
    JoinEmptyFirst(b, '\n');
    NotBracketed(json, b);
    FieldsAfterBreak(b, '\n');
    FieldsJoinIff(["", b], '\n');
  }

  lemma JoinEmptyFirst(b: string, sep: char)
    ensures Join(["", b], sep) == [sep] + b
  {
    assert ["", b][1..] == [b];
  }

  lemma NotBracketed(json: JsonArray, b: string)
    requires Tidy(b) && b[0] != '['
    ensures Bracketed(json, ['\n'] + b) == None
  {
    TrimFirst('\n', b, SPACES);
  }

  lemma FieldsAfterBreak(b: string, sep: char)
    requires b != "" && sep !in b
    ensures Fields([sep] + b, sep) == [b]
  {
    TrimFirst(sep, b, [sep]);
    hide Trim, Split;
    SplitWithoutSep(b, sep);
  }

  lemma TrimFirst(c: char, b: string, cut: string)
    requires c in cut && b != "" && b[0] !in cut && b[|b| - 1] !in cut
    ensures Trim([c] + b, cut) == b
  {
    assert ([c] + b)[1..] == b;
    assert TrimLeft([c] + b, cut) == b;
  }

  // The abstract list

  datatype Entry = Entry(key: string, status: int, time: int, reason: string)

  datatype Marks = Marks(statuses: map<int, int>, times: map<int, int>, reasons: map<int, string>)

  const NO_MARKS := Marks(map[], map[], map[])

  function StatusAt(m: Marks, i: int): int {
    if i in m.statuses then m.statuses[i] else ENABLED
  }

  function EntryAt(key: string, m: Marks, i: int): Entry {
    Entry(key, StatusAt(m, i),
          if i in m.times then m.times[i] else 0,
          if i in m.reasons then m.reasons[i] else "")
  }

  function Table(keys: seq<string>, m: Marks): (r: seq<Entry>) {
    seq(|keys|, i requires 0 <= i < |keys| => EntryAt(keys[i], m, i))
  }

  function Enable(e: Entry): Entry {
    Entry(e.key, ENABLED, 0, "")
  }

  /** An enabled entry shows no time and no reason. */
  function Clean(e: Entry): Entry {
    if e.status == ENABLED then Enable(e) else e
  }

  function DisableEnabled(e: Entry): Entry {
    if e.status == ENABLED then e.(status := MANUALLY_DISABLED) else e
  }

  function AllEnabled(es: seq<Entry>): seq<Entry> {
    seq(|es|, i requires 0 <= i < |es| => Enable(es[i]))
  }

  function NoneEnabled(es: seq<Entry>): seq<Entry> {
    seq(|es|, i requires 0 <= i < |es| => DisableEnabled(es[i]))
  }

  function KeysOf(es: seq<Entry>): seq<string> {
    seq(|es|, i requires 0 <= i < |es| => es[i].key)
  }

  function RemoveAt(es: seq<Entry>, k: int): seq<Entry> {
    if 0 <= k < |es| then es[..k] + es[k + 1..] else es
  }

  function NotAutoDisabled(es: seq<Entry>, n: nat): seq<Entry>
    requires n <= |es|
  {
    if n == 0 then []
    else if es[n - 1].status == AUTO_DISABLED then NotAutoDisabled(es, n - 1)
    else NotAutoDisabled(es, n - 1) + [Clean(es[n - 1])]
  }

  lemma {:induction false} AllAutoDisabledIff(es: seq<Entry>, n: nat)
    requires n <= |es|
    ensures NotAutoDisabled(es, n) == [] <==> forall i :: 0 <= i < n ==> es[i].status == AUTO_DISABLED
    ensures |NotAutoDisabled(es, n)| <= n
  {
    if n > 0 {
      AllAutoDisabledIff(es, n - 1);
    }
  }

  /** Marks below `n` only. */
  predicate Below(m: Marks, n: int) {
    (forall i :: i in m.statuses ==> i < n) && (forall i :: i in m.times ==> i < n) &&
    (forall i :: i in m.reasons ==> i < n)
  }

  /** Reindexing: the marks of index `i` become those of index `n`. */
  function Append(m: Marks, n: int, e: Entry, from: Marks, i: int): Marks {
    Marks(if e.status != ENABLED then m.statuses[n := e.status] else m.statuses,
          if i in from.times then m.times[n := from.times[i]] else m.times,
          if i in from.reasons then m.reasons[n := from.reasons[i]] else m.reasons)
  }

  lemma AppendAddsEntry(keys: seq<string>, m: Marks, key: string, from: Marks, i: int)
    requires Below(m, |keys|)
    ensures var e := EntryAt(key, from, i);
      var m2 := Append(m, |keys|, e, from, i);
      Below(m2, |keys| + 1) && Table(keys + [key], m2) == Table(keys, m) + [e]
  {
  }

  lemma AppendEnabled(keys: seq<string>, m: Marks, key: string)
    requires Below(m, |keys|)
    ensures Below(m, |keys| + 1) && Table(keys + [key], m) == Table(keys, m) + [Entry(key, ENABLED, 0, "")]
  {
  }

  function Cut(m: Marks, size: int): Marks {
    m.(statuses := map i | i in m.statuses && i < size :: m.statuses[i])
  }

  predicate StatusesBelow(m: Marks, size: int) {
    forall i :: i in m.statuses ==> i < size
  }

  /** Cutting statuses off at the recorded size changes no entry. */
  lemma CutKeepsTable(json: JsonArray, key: string, m: Marks)
    ensures Table(GetKeys(json, key), Cut(m, CountKeys(json, key))) == Table(GetKeys(json, key), m)
  {
    hide Bracketed, Fields;
    SizeIsKeyCountIff(json, key);
  }

  /** The whole table is read back exactly when its keys are. */
  lemma SavedTableIff(json: JsonArray, key: string, es: seq<Entry>, m: Marks)
    requires Table(KeysOf(es), m) == es
    ensures Table(GetKeys(json, key), Cut(m, CountKeys(json, key))) == es <==> GetKeys(json, key) == KeysOf(es)
  {
    CutKeepsTable(json, key, m);
    hide GetKeys, CountKeys;
    KeysOfTable(GetKeys(json, key), m);
  }

  lemma JoinNothing()
    ensures Join([], '\n') == ""
  {
  }

  lemma KeysOfTable(keys: seq<string>, m: Marks)
    ensures KeysOf(Table(keys, m)) == keys
  {
  }

  // The loops of the actions

  lemma DisabledTable(keys: seq<string>, m: Marks, k: int)
    ensures Table(keys, m.(statuses := m.statuses[k := MANUALLY_DISABLED])) ==
      var es := Table(keys, m);
      if 0 <= k < |es| then es[k := es[k].(status := MANUALLY_DISABLED)] else es
  {
  }

  lemma EnabledTable(keys: seq<string>, m: Marks, k: int)
    ensures Table(keys, Marks(m.statuses - {k}, m.times - {k}, m.reasons - {k})) ==
      var es := Table(keys, m);
      if 0 <= k < |es| then es[k := Enable(es[k])] else es
  {
  }

  lemma UnmarkedTable(keys: seq<string>, m: Marks, r: Marks)
    requires Below(r, 0)
    ensures Table(keys, r) == AllEnabled(Table(keys, m))
  {
  }

  method DisableBelow(m: Marks, size: int) returns (r: Marks, disabledCount: int)
    ensures disabledCount >= 0
    ensures disabledCount > 0 <==> exists j :: 0 <= j < size && StatusAt(m, j) == ENABLED
    ensures r.times == m.times && r.reasons == m.reasons
    ensures forall j ::
      StatusAt(r, j) == if 0 <= j < size && StatusAt(m, j) == ENABLED then MANUALLY_DISABLED else StatusAt(m, j)
  {
    r, disabledCount := m, 0;
    var i := 0;
    while i < size
      invariant 0 <= i && (i <= size || i == 0)
      invariant disabledCount >= 0
      invariant disabledCount > 0 <==> exists j :: 0 <= j < i && StatusAt(m, j) == ENABLED
      invariant r.times == m.times && r.reasons == m.reasons
      invariant forall j ::
        StatusAt(r, j) == if 0 <= j < i && StatusAt(m, j) == ENABLED then MANUALLY_DISABLED else StatusAt(m, j)
    {
      if StatusAt(r, i) == ENABLED {
        assert StatusAt(m, i) == ENABLED;
        r := r.(statuses := r.statuses[i := MANUALLY_DISABLED]);
        disabledCount := disabledCount + 1;
      }
      i := i + 1;
    }
  }

  lemma AllDisabledTable(keys: seq<string>, m: Marks, size: int, r: Marks)
    requires keys == [] || |keys| == size
    requires r.times == m.times && r.reasons == m.reasons
    requires forall j ::
      StatusAt(r, j) == if 0 <= j < size && StatusAt(m, j) == ENABLED then MANUALLY_DISABLED else StatusAt(m, j)
    ensures Table(keys, r) == NoneEnabled(Table(keys, m))
  {
  }

  lemma PrefixRemoveAt(es: seq<Entry>, i: nat, k: int)
    requires i < |es|
    ensures RemoveAt(es[..i + 1], k) == if i == k then RemoveAt(es[..i], k) else RemoveAt(es[..i], k) + [es[i]]
  {
  }

  /** The reindexing loop of delete_key. */
  method WithoutKey(keys: seq<string>, m: Marks, k: int) returns (remaining: seq<string>, r: Marks)
    ensures Table(remaining, r) == RemoveAt(Table(keys, m), k)
    ensures KeysOf(Table(remaining, r)) == remaining
  {
    remaining, r := [], NO_MARKS;
    ghost var es := Table(keys, m);
    for i := 0 to |keys|
      invariant Below(r, |remaining|)
      invariant Table(remaining, r) == RemoveAt(es[..i], k)
    {
      PrefixRemoveAt(es, i, k);
      hide Table, Append, RemoveAt;
      if i != k {
        AppendAddsEntry(remaining, r, keys[i], m, i);
        assert es[i] == EntryAt(keys[i], m, i) by { TableAt(keys, m, i); }
        r := Append(r, |remaining|, EntryAt(keys[i], m, i), m, i);
        remaining := remaining + [keys[i]];
      }
    }
    assert es[..|keys|] == es;
    KeysOfTable(remaining, r);
  }

  lemma TableSize(keys: seq<string>, m: Marks)
    ensures |Table(keys, m)| == |keys|
  {
  }

  lemma AlreadyDisabled(keys: seq<string>, m: Marks, size: int)
    requires keys == [] || |keys| == size
    requires forall j :: 0 <= j < size ==> StatusAt(m, j) != ENABLED
    ensures NoneEnabled(Table(keys, m)) == Table(keys, m)
  {
  }

  lemma TableAt(keys: seq<string>, m: Marks, i: nat)
    requires i < |keys|
    ensures |Table(keys, m)| == |keys| && Table(keys, m)[i] == EntryAt(keys[i], m, i)
  {
  }

  /** The reindexing loop of delete_disabled_keys. */
  method WithoutDisabled(keys: seq<string>, m: Marks) returns (remaining: seq<string>, r: Marks, deleted: nat)
    ensures Table(remaining, r) == NotAutoDisabled(Table(keys, m), |Table(keys, m)|)
    ensures KeysOf(Table(remaining, r)) == remaining
    ensures deleted == |keys| - |remaining| && Below(r, |remaining|)
  {
    remaining, r, deleted := [], NO_MARKS, 0;
    ghost var es := Table(keys, m);
    for i := 0 to |keys|
      invariant Below(r, |remaining|)
      invariant Table(remaining, r) == NotAutoDisabled(es, i)
      invariant deleted == i - |remaining|
    {
      TableAt(keys, m, i);
      hide Table, Append;
      if StatusAt(m, i) == AUTO_DISABLED {
        deleted := deleted + 1;
      } else if StatusAt(m, i) != ENABLED {
        AppendAddsEntry(remaining, r, keys[i], m, i);
        r := Append(r, |remaining|, EntryAt(keys[i], m, i), m, i);
        remaining := remaining + [keys[i]];
      } else {
        AppendEnabled(remaining, r, keys[i]);
        remaining := remaining + [keys[i]];
      }
    }
    KeysOfTable(remaining, r);
  }

  // Appending keys

  /** How the append mode reads the keys that are there. */
  function Existing(json: JsonArray, key: string): seq<string> {
    var t := TrimSpace(key);
    if t != "" && t[0] == '[' then
      match json(t)
      case Some(parts) => parts
      case None => []
    else Fields(key, '\n')
  }

  /** It agrees with `GetKeys` unless the text opens with a bracket and is no JSON array. */
  lemma ExistingIff(json: JsonArray, key: string)
    requires key != ""
    ensures Existing(json, key) == GetKeys(json, key) <==>
      !(TrimSpace(key) != "" && TrimSpace(key)[0] == '[' && json(TrimSpace(key)).None?)
  {
  }

  /** How a Vertex channel reads an array of service-account keys, if the text is one. */
  type VertexArray = string -> Option<seq<string>>

  /** The keys an input names: its lines, or for Vertex one key or an array of them. */
  function InputKeys(vertex: Option<VertexArray>, input: string): Option<seq<string>> {
    var t := TrimSpace(input);
    if vertex.None? then Some(Split(input, '\n'))
    else if t != "" && t[0] == '[' then vertex.value(input)
    else Some([input])
  }

  /** Only a Vertex array can fail to name keys. */
  lemma InputKeysIff(vertex: Option<VertexArray>, input: string)
    ensures vertex.None? ==> InputKeys(vertex, input) == Some(Split(input, '\n'))
    ensures vertex.Some? ==>
      InputKeys(vertex, input) == if "[" <= TrimSpace(input) then vertex.value(input) else Some([input])
  {
  }

  /** The keys an append adds: trimmed ones that no existing key trims to, each once. */
  function NewKeys(existing: seq<string>, input: seq<string>): seq<string> {
    var keys := Trimmed(input);
    Unseen(Elements(Trimmed(existing)), keys, |keys|)
  }

  /** Nothing is added twice, nothing is missed, and what is added is tidy. */
  lemma NewKeysAreExact(existing: seq<string>, input: seq<string>)
    ensures var added := NewKeys(existing, input);
      (forall i, j :: 0 <= i < j < |added| ==> added[i] != added[j]) &&
      (forall k :: k in added ==> Tidy(k) && k in Trimmed(input) && k !in Trimmed(existing)) &&
      (forall k :: k in Trimmed(input) ==> k in Trimmed(existing) || k in added)
  {
    hide Trimmed, Tidy;
    var keys := Trimmed(input);
    UnseenIsExact(Elements(Trimmed(existing)), keys, |keys|);
    TrimmedIsTidy(input);
  }

  /** Appending the same keys again adds nothing. */
  lemma AppendTwice(existing: seq<string>, input: seq<string>)
    ensures NewKeys(existing + NewKeys(existing, input), input) == []
  {
    var keys := Trimmed(input);
    var added := NewKeys(existing, input);
    NewKeysAreExact(existing, input);
    TrimmedOfTidy(added);
    TrimmedConcat(existing, added);
    AllSeen(Elements(Trimmed(existing + added)), keys, |keys|);
  }

  method CollectNewKeys(existing: seq<string>, input: seq<string>) returns (added: seq<string>)
    ensures added == NewKeys(existing, input)
  {
    hide Trimmed, Unseen, Elements;
    var newKeys := TrimLines(input);
    var trimmed := TrimLines(existing);
    var seen := CollectElements(trimmed);
    added := Deduplicate(seen, newKeys);
  }

  method TrimLines(lines: seq<string>) returns (r: seq<string>)
    ensures r == Trimmed(lines)
  {
    r := [];
    for i := 0 to |lines|
      invariant r == Trimmed(lines[..i])
    {
      TrimmedSnoc(lines, i);
      hide Trimmed, TrimSpace;
      if TrimSpace(lines[i]) != "" {
        r := r + [TrimSpace(lines[i])];
      }
    }
    assert lines[..|lines|] == lines;
  }

  /** The entries that were there, followed by new enabled ones. */
  predicate Extends(es: seq<Entry>, kept: seq<Entry>, added: seq<string>) {
    |es| == |kept| + |added| && es[..|kept|] == kept &&
    forall j :: 0 <= j < |added| ==> es[|kept| + j].key == added[j] && es[|kept| + j].status == ENABLED
  }

  lemma ExtendedTable(keys: seq<string>, added: seq<string>, m: Marks)
    requires StatusesBelow(m, |keys|)
    ensures Extends(Table(keys + added, m), Table(keys, m), added)
  {
    var es := Table(keys + added, m);
    forall i | 0 <= i < |keys| ensures es[..|keys|][i] == Table(keys, m)[i] {
      TableAt(keys, m, i);
      TableAt(keys + added, m, i);
    }
    forall j | 0 <= j < |added| ensures es[|keys| + j].key == added[j] && es[|keys| + j].status == ENABLED {
      TableAt(keys + added, m, |keys| + j);
    }
  }

  // Listing keys

  datatype Row = Row(index: int, status: int, time: int, reason: string, preview: string)

  /** How a key is shortened for display: its first ten bytes and dots. */
  type Shorten = string -> string

  function RowOf(e: Entry, i: int, shorten: Shorten): Row {
    Row(i, e.status, Clean(e).time, Clean(e).reason, shorten(e.key))
  }

  predicate Wanted(status: Option<int>, e: Entry) {
    status.None? || e.status == status.value
  }

  function Rows(es: seq<Entry>, status: Option<int>, shorten: Shorten, n: nat): seq<Row>
    requires n <= |es|
  {
    if n == 0 then []
    else if Wanted(status, es[n - 1]) then Rows(es, status, shorten, n - 1) + [RowOf(es[n - 1], n - 1, shorten)]
    else Rows(es, status, shorten, n - 1)
  }

  function Count(es: seq<Entry>, status: int, n: nat): nat
    requires n <= |es|
  {
    if n == 0 then 0 else Count(es, status, n - 1) + if es[n - 1].status == status then 1 else 0
  }

  /** The three counters add up to the number of keys exactly when every status is known. */
  lemma {:induction false} CountersAddUpIff(es: seq<Entry>, n: nat)
    requires n <= |es|
    ensures var sum := Count(es, ENABLED, n) + Count(es, MANUALLY_DISABLED, n) + Count(es, AUTO_DISABLED, n);
      sum <= n && (sum == n <==> forall i :: 0 <= i < n ==> ENABLED <= es[i].status <= AUTO_DISABLED)
  {
    if n > 0 {
      CountersAddUpIff(es, n - 1);
    }
  }

  /** A status filter lists as many rows as the matching counter says. */
  lemma {:induction false} FilterMatchesCounter(es: seq<Entry>, status: int, shorten: Shorten, n: nat)
    requires n <= |es|
    ensures |Rows(es, Some(status), shorten, n)| == Count(es, status, n)
  {
    if n > 0 {
      FilterMatchesCounter(es, status, shorten, n - 1);
    }
  }

  predicate Ascending(at: seq<nat>) {
    forall i, j :: 0 <= i < j < |at| ==> at[i] < at[j]
  }

  /** The positions of the first `n` entries that are kept. */
  function Kept(es: seq<Entry>, keep: Entry -> bool, n: nat): seq<nat>
    requires n <= |es|
  {
    if n == 0 then []
    else if keep(es[n - 1]) then Kept(es, keep, n - 1) + [n - 1]
    else Kept(es, keep, n - 1)
  }

  lemma {:induction false} KeptIsExact(es: seq<Entry>, keep: Entry -> bool, n: nat)
    requires n <= |es|
    ensures Ascending(Kept(es, keep, n))
    ensures forall i :: i in Kept(es, keep, n) <==> 0 <= i < n && keep(es[i])
  {
    if n > 0 {
      KeptIsExact(es, keep, n - 1);
      var first := Kept(es, keep, n - 1);
      assert forall j :: 0 <= j < |first| ==> first[j] in first;
    }
  }

  /** What a row shows of the entry at its index; an enabled entry has no time and no
      reason to show. */
  predicate Shows(row: Row, i: nat, e: Entry, shorten: Shorten) {
    row.index == i && row.status == e.status && row.preview == shorten(e.key) &&
    row.time == (if e.status == 1 then 0 else e.time) && row.reason == (if e.status == 1 then "" else e.reason)
  }

  lemma RowShows(e: Entry, i: nat, shorten: Shorten)
    ensures Shows(RowOf(e, i, shorten), i, e, shorten)
  {
  }

  function HasStatus(status: Option<int>): Entry -> bool {
    (e: Entry) => status.None? || e.status == status.value
  }

  lemma {:induction false} RowsMatch(es: seq<Entry>, status: Option<int>, shorten: Shorten, n: nat)
    requires n <= |es|
    ensures var at, rows := Kept(es, HasStatus(status), n), Rows(es, status, shorten, n);
      |at| == |rows| &&
      forall j :: 0 <= j < |at| ==> at[j] < n && Shows(rows[j], at[j], es[at[j]], shorten)
  {
    hide Shows, RowOf;
    if n > 0 {
      RowsMatch(es, status, shorten, n - 1);
      RowShows(es[n - 1], n - 1, shorten);
    }
  }

  /** The rows are the wanted entries in order, with their indices. */
  lemma RowsAreExact(es: seq<Entry>, status: Option<int>, shorten: Shorten) returns (at: seq<nat>)
    ensures Ascending(at) && |at| == |Rows(es, status, shorten, |es|)|
    ensures forall i :: 0 <= i < |es| ==> (i in at <==> status.None? || es[i].status == status.value)
    ensures forall j :: 0 <= j < |at| ==>
      at[j] < |es| && Shows(Rows(es, status, shorten, |es|)[j], at[j], es[at[j]], shorten)
  {
    hide Shows, Rows, Kept;
    at := Kept(es, HasStatus(status), |es|);
    KeptIsExact(es, HasStatus(status), |es|);
    RowsMatch(es, status, shorten, |es|);
  }

  function TotalPages(total: nat, size: nat): nat
    requires size > 0
  {
    var n := (total + size - 1) / size;
    if n == 0 then 1 else n
  }

  function PageFrom(rows: seq<Row>, start: nat, size: nat): seq<Row> {
    if start < |rows| then rows[start..if start + size > |rows| then |rows| else start + size] else []
  }

  function Page(rows: seq<Row>, page: nat, size: nat): seq<Row>
    requires size > 0 && page > 0
  {
    PageFrom(rows, (page - 1) * size, size)
  }

  function Pages(rows: seq<Row>, size: nat, n: nat): seq<Row>
    requires size > 0
  {
    if n == 0 then [] else Pages(rows, size, n - 1) + Page(rows, n, size)
  }

  function Prefix(rows: seq<Row>, n: nat): seq<Row> {
    if n < |rows| then rows[..n] else rows
  }

  lemma PrefixGrows(rows: seq<Row>, start: nat, size: nat)
    ensures Prefix(rows, start) + PageFrom(rows, start, size) == Prefix(rows, start + size)
  {
  }

  lemma NextStart(n: nat, size: nat)
    requires n > 0
    ensures n * size == (n - 1) * size + size && (n - 1) * size >= 0
  {
  }

  lemma {:induction false} PagesArePrefix(rows: seq<Row>, size: nat, n: nat)
    requires size > 0
    ensures n * size >= 0 && Pages(rows, size, n) == Prefix(rows, n * size)
  {
    if n > 0 {
      PagesArePrefix(rows, size, n - 1);
      NextStart(n, size);
      hide PageFrom, Prefix;
      PrefixGrows(rows, (n - 1) * size, size);
    } else {
      assert n * size == 0;
    }
  }

  lemma PagesCover(total: nat, size: nat)
    requires size > 0
    ensures TotalPages(total, size) * size >= total
    ensures if total == 0 then TotalPages(total, size) == 1 else 0 <= (TotalPages(total, size) - 1) * size < total
  {
    var n := (total + size - 1) / size;
    assert n * size > total + size - 1 - size;
  }

  /** Turning through all pages shows every row once, in order, and no page is empty
      unless there is nothing to show. */
  lemma PagesCoverList(rows: seq<Row>, size: nat)
    requires size > 0
    ensures Pages(rows, size, TotalPages(|rows|, size)) == rows
    ensures if rows == [] then TotalPages(|rows|, size) == 1 else Page(rows, TotalPages(|rows|, size), size) != []
  {
    PagesCover(|rows|, size);
    PagesArePrefix(rows, size, TotalPages(|rows|, size));
  }

  // Runs of actions

  datatype Action =
    | ActDisable(index: int) | ActEnable(index: int) | ActEnableAll | ActDisableAll
    | ActDelete(index: int) | ActDeleteDisabled

  /** The action on the list of entries. */
  function Act(es: seq<Entry>, a: Action): seq<Entry> {
    match a
    case ActDisable(i) => if 0 <= i < |es| then es[i := es[i].(status := MANUALLY_DISABLED)] else es
    case ActEnable(i) => if 0 <= i < |es| then es[i := Enable(es[i])] else es
    case ActEnableAll => AllEnabled(es)
    case ActDisableAll => NoneEnabled(es)
    case ActDelete(i) => if RemoveAt(es, i) != [] then RemoveAt(es, i) else es
    case ActDeleteDisabled =>
      var rest := NotAutoDisabled(es, |es|);
      if |rest| == |es| then es else if rest == [] then AllEnabled(es) else rest
  }

  function ActAll(es: seq<Entry>, actions: seq<Action>, n: nat): seq<Entry>
    requires n <= |actions|
  {
    if n == 0 then es else Act(ActAll(es, actions, n - 1), actions[n - 1])
  }

  /** A key with something to see that is not the start of a JSON array. */
  predicate PlainKey(key: string) {
    TrimSpace(key) != "" && TrimSpace(key)[0] != '[' && '\n' !in key
  }

  predicate PlainKeys(keys: seq<string>) {
    forall i :: 0 <= i < |keys| ==> PlainKey(keys[i])
  }

  lemma {:induction false} TrimLeftConcat(a: string, b: string, cut: string)
    requires TrimLeft(a, cut) != ""
    ensures TrimLeft(a + b, cut) == TrimLeft(a, cut) + b
  {
    assert a != "" && (a + b)[0] == a[0];
    if a[0] in cut {
      var tail := a[1..];
      assert (a + b)[1..] == tail + b;
      TrimLeftConcat(tail, b, cut);
      calc {
        TrimLeft(a + b, cut);
        TrimLeft(tail + b, cut);
        TrimLeft(tail, cut) + b;
      }
    }
  }

  lemma {:induction false} TrimRightKeepsFirst(s: string, cut: string)
    requires s != "" && s[0] !in cut
    ensures TrimRight(s, cut) != "" && TrimRight(s, cut)[0] == s[0]
  {
    if s[|s| - 1] in cut {
      TrimRightKeepsFirst(s[..|s| - 1], cut);
    }
  }

  lemma TrimFirstChar(s: string, cut: string)
    requires Trim(s, cut) != ""
    ensures TrimLeft(s, cut) != "" && Trim(s, cut)[0] == TrimLeft(s, cut)[0]
  {
    TrimRightKeepsFirst(TrimLeft(s, cut), cut);
  }

  lemma FirstVisible(a: string, rest: string, cut: string)
    requires Trim(a, cut) != ""
    ensures Trim(a + rest, cut) != "" && Trim(a + rest, cut)[0] == Trim(a, cut)[0]
  {
    TrimFirstChar(a, cut);
    TrimLeftConcat(a, rest, cut);
    TrimRightKeepsFirst(TrimLeft(a + rest, cut), cut);
    hide TrimLeft, TrimRight;
  }

  lemma JoinHead(keys: seq<string>, sep: char) returns (rest: string)
    requires keys != []
    ensures Join(keys, sep) == keys[0] + rest
  {
    if |keys| == 1 {
      rest := "";
    } else {
      rest := [sep] + Join(keys[1..], sep);
    }
  }

  /** The first visible character of the joined keys is that of the first key. */
  lemma PlainIsNotBracketed(json: JsonArray, keys: seq<string>)
    requires keys != [] && PlainKeys(keys)
    ensures Bracketed(json, Join(keys, '\n')).None?
  {
    hide Trim, Join;
    assert PlainKey(keys[0]);
    var rest := JoinHead(keys, '\n');
    FirstVisible(keys[0], rest, SPACES);
  }

  lemma PlainIsNonEmpty(keys: seq<string>)
    requires PlainKeys(keys)
    ensures forall i :: 0 <= i < |keys| ==> keys[i] != "" && '\n' !in keys[i]
  {
    forall i | 0 <= i < |keys| ensures keys[i] != "" && '\n' !in keys[i] {
      assert PlainKey(keys[i]);
    }
  }

  lemma PlainSaves(json: JsonArray, before: string, keys: seq<string>)
    requires keys != [] && PlainKeys(keys)
    ensures Saves(json, before, keys)
  {
    PlainIsNotBracketed(json, keys);
    PlainIsNonEmpty(keys);
    PlainKeysSave(json, before, keys);
  }

  predicate PlainEntries(es: seq<Entry>) {
    es != [] && forall i :: 0 <= i < |es| ==> PlainKey(es[i].key)
  }

  lemma {:induction false} FilteredIsPlain(es: seq<Entry>, n: nat)
    requires n <= |es| && forall i :: 0 <= i < |es| ==> PlainKey(es[i].key)
    ensures forall i :: 0 <= i < |NotAutoDisabled(es, n)| ==> PlainKey(NotAutoDisabled(es, n)[i].key)
  {
    hide PlainKey;
    if n > 0 {
      FilteredIsPlain(es, n - 1);
    }
  }

  lemma ActKeepsPlain(es: seq<Entry>, a: Action)
    requires PlainEntries(es)
    ensures PlainEntries(Act(es, a))
  {
    hide PlainKey;
    FilteredIsPlain(es, |es|);
  }

  lemma PlainListSaves(json: JsonArray, before: string, es: seq<Entry>)
    requires PlainEntries(es)
    ensures Saves(json, before, KeysOf(es))
  {
    hide PlainKey, Saves;
    PlainSaves(json, before, KeysOf(es));
  }

  lemma RemovedSaves(json: JsonArray, before: string, es: seq<Entry>, k: int)
    requires PlainEntries(es)
    ensures var rest := RemoveAt(es, k);
      (rest != [] ==> Saves(json, before, KeysOf(rest))) && (!(0 <= k < |es|) ==> rest == es)
  {
    hide PlainKey, Saves, KeysOf;
    if RemoveAt(es, k) != [] {
      PlainListSaves(json, before, RemoveAt(es, k));
    }
  }

  lemma FilteredSaves(json: JsonArray, before: string, es: seq<Entry>)
    requires PlainEntries(es)
    ensures var rest := NotAutoDisabled(es, |es|); rest != [] ==> Saves(json, before, KeysOf(rest))
  {
    FilteredIsPlain(es, |es|);
    hide PlainKey, Saves, KeysOf, NotAutoDisabled;
    var rest := NotAutoDisabled(es, |es|);
    if rest != [] {
      PlainListSaves(json, before, rest);
    }
  }

  /** Element `j` of `to` is element `at[j]` of `from`, and positions ascend. */
  predicate Positions<T(==)>(from: seq<T>, to: seq<T>, at: seq<nat>) {
    |at| == |to| &&
    (forall j :: 0 <= j < |to| ==> at[j] < |from| && to[j] == from[at[j]]) &&
    (forall i, j :: 0 <= i < j < |at| ==> at[i] < at[j])
  }

  lemma SamePositions<T>(s: seq<T>) returns (at: seq<nat>)
    ensures Positions(s, s, at)
  {
    at := seq(|s|, i => i);
  }

  lemma PositionsCompose<T>(a: seq<T>, b: seq<T>, c: seq<T>, ab: seq<nat>, bc: seq<nat>) returns (ac: seq<nat>)
    requires Positions(a, b, ab) && Positions(b, c, bc)
    ensures Positions(a, c, ac)
  {
    ac := seq(|bc|, i requires 0 <= i < |bc| => ab[bc[i]]);
  }

  /** A run only loses keys, and keeps the others in order. */
  lemma {:induction false} RunKeepsOrder(es: seq<Entry>, actions: seq<Action>, n: nat) returns (at: seq<nat>)
    requires n <= |actions|
    ensures Positions(KeysOf(es), KeysOf(ActAll(es, actions, n)), at)
  {
    hide Act, Positions, KeysOf;
    if n == 0 {
      at := SamePositions(KeysOf(es));
    } else {
      var before := ActAll(es, actions, n - 1);
      var first := RunKeepsOrder(es, actions, n - 1);
      var second := ActKeepsOrder(before, actions[n - 1]);
      at := PositionsCompose(KeysOf(es), KeysOf(before), KeysOf(Act(before, actions[n - 1])), first, second);
    }
  }

  /** The same key and status and, unless it is enabled, the same time and reason. */
  predicate KeepsMarks(before: Entry, after: Entry) {
    after.key == before.key && after.status == before.status &&
    (before.status != 1 ==> after.time == before.time && after.reason == before.reason)
  }

  lemma CleanKeepsMarks(e: Entry)
    ensures KeepsMarks(e, Clean(e))
  {
  }

  function NotThree(): Entry -> bool {
    (e: Entry) => e.status != 3
  }

  lemma {:induction false} FilterMatches(es: seq<Entry>, n: nat)
    requires n <= |es|
    ensures var at, rest := Kept(es, NotThree(), n), NotAutoDisabled(es, n);
      |at| == |rest| && forall j :: 0 <= j < |at| ==> at[j] < n && KeepsMarks(es[at[j]], rest[j])
  {
    hide KeepsMarks, Clean;
    if n > 0 {
      FilterMatches(es, n - 1);
      CleanKeepsMarks(es[n - 1]);
    }
  }

  /** Deleting disabled keys keeps exactly the entries whose status is not 3, in order and
      with their marks. */
  lemma FilterKeepsMarks(es: seq<Entry>) returns (at: seq<nat>)
    ensures Ascending(at) && |at| == |NotAutoDisabled(es, |es|)|
    ensures forall j :: 0 <= j < |at| ==>
      at[j] < |es| && es[at[j]].status != 3 && KeepsMarks(es[at[j]], NotAutoDisabled(es, |es|)[j])
    ensures forall i :: 0 <= i < |es| ==> (i in at <==> es[i].status != 3)
  {
    hide KeepsMarks, NotAutoDisabled, Kept;
    at := Kept(es, NotThree(), |es|);
    KeptIsExact(es, NotThree(), |es|);
    FilterMatches(es, |es|);
    assert forall j :: 0 <= j < |at| ==> at[j] in at;
  }

  predicate AllThree(es: seq<Entry>) {
    forall i :: 0 <= i < |es| ==> es[i].status == 3
  }

  /** What an action makes of the entry at position `i`. */
  predicate Becomes(es: seq<Entry>, a: Action, i: nat, after: Entry)
    requires i < |es|
  {
    match a
    case ActDisable(k) => after == if i == k then es[i].(status := 2) else es[i]
    case ActEnable(k) => after == if i == k then Entry(es[i].key, 1, 0, "") else es[i]
    case ActEnableAll => after == Entry(es[i].key, 1, 0, "")
    case ActDisableAll => after == if es[i].status == 1 then es[i].(status := 2) else es[i]
    case ActDelete(_) => after == es[i]
    case ActDeleteDisabled => if AllThree(es) then after == Entry(es[i].key, 1, 0, "") else KeepsMarks(es[i], after)
  }

  /** Whether an action keeps the entry at position `i`: the last key is not deleted, and
      neither are keys that are all automatically disabled. */
  predicate Survives(es: seq<Entry>, a: Action, i: nat)
    requires i < |es|
  {
    match a
    case ActDelete(k) => i != k || |es| == 1
    case ActDeleteDisabled => es[i].status != 3 || AllThree(es)
    case _ => true
  }

  /** Exactly which entries an action leaves, in order, and with which marks. */
  lemma ActIsExact(es: seq<Entry>, a: Action) returns (at: seq<nat>)
    ensures Ascending(at) && |at| == |Act(es, a)|
    ensures forall j :: 0 <= j < |at| ==> at[j] < |es| && Becomes(es, a, at[j], Act(es, a)[j])
    ensures forall i :: 0 <= i < |es| ==> (i in at <==> Survives(es, a, i))
  {
    AllAutoDisabledIff(es, |es|);
    hide NotAutoDisabled, KeepsMarks, Ascending;
    if a.ActDelete? && 0 <= a.index < |es| && |es| > 1 {
      at := DeleteIsExact(es, a.index);
    } else if a.ActDeleteDisabled? && !AllThree(es) {
      at := FilterKeepsMarks(es);
      AllKept(es, at);
      SameMarks(es);
    } else {
      at := AllPositions(|es|);
    }
  }

  lemma AllPositions(n: nat) returns (at: seq<nat>)
    ensures Ascending(at) && |at| == n && forall i :: 0 <= i < n ==> at[i] == i && i in at
  {
    at := seq(n, i => i);
    forall i | 0 <= i < n ensures at[i] == i && i in at {
      assert at[i] == i;
    }
  }

  lemma SameMarks(es: seq<Entry>)
    ensures forall i :: 0 <= i < |es| ==> KeepsMarks(es[i], es[i])
  {
  }

  lemma DeleteIsExact(es: seq<Entry>, k: nat) returns (at: seq<nat>)
    requires k < |es| && |es| > 1
    ensures Ascending(at) && |at| == |RemoveAt(es, k)| == |es| - 1
    ensures forall j :: 0 <= j < |at| ==> at[j] < |es| && RemoveAt(es, k)[j] == es[at[j]]
    ensures forall i :: 0 <= i < |es| ==> (i in at <==> i != k)
  {
    at := seq(|es| - 1, i => if i < k then i else i + 1);
    forall i | 0 <= i < |es| && i != k ensures i in at {
      assert at[if i < k then i else i - 1] == i;
    }
  }

  /** With nothing to delete, the positions are all positions. */
  lemma AllKept(es: seq<Entry>, at: seq<nat>)
    requires Ascending(at) && forall j :: 0 <= j < |at| ==> at[j] < |es|
    ensures |at| == |es| ==> forall j :: 0 <= j < |at| ==> at[j] == j
  {
    if |at| == |es| {
      AtLeast(at, |at|);
      AtMost(at, |es|, |at|);
    }
  }

  lemma {:induction false} AtLeast(at: seq<nat>, n: nat)
    requires Ascending(at) && n <= |at|
    ensures forall j :: 0 <= j < n ==> at[j] >= j
  {
    if n > 0 {
      AtLeast(at, n - 1);
      assert n > 1 ==> at[n - 2] < at[n - 1];
    }
  }

  lemma {:induction false} AtMost(at: seq<nat>, bound: nat, n: nat)
    requires Ascending(at) && n <= |at| <= bound && forall j :: 0 <= j < |at| ==> at[j] < bound
    ensures forall j :: |at| - n <= j < |at| ==> at[j] <= bound - |at| + j
  {
    if n > 0 {
      AtMost(at, bound, n - 1);
      assert n > 1 ==> at[|at| - n] < at[|at| - n + 1];
    }
  }

  lemma ActKeepsOrder(es: seq<Entry>, a: Action) returns (at: seq<nat>)
    ensures Positions(KeysOf(es), KeysOf(Act(es, a)), at)
  {
    at := ActIsExact(es, a);
  }

  /** Through any run of deletions, every key that is left has kept the status, time and
      reason it started with, unless it started automatically disabled. */
  lemma {:induction false} DeletionsKeepMarks(es: seq<Entry>, actions: seq<Action>, n: nat) returns (at: seq<nat>)
    requires n <= |actions| && forall i :: 0 <= i < n ==> actions[i].ActDelete? || actions[i].ActDeleteDisabled?
    ensures Ascending(at) && |at| == |ActAll(es, actions, n)|
    ensures forall j :: 0 <= j < |at| ==>
      at[j] < |es| && (es[at[j]].status != 3 ==> KeepsMarks(es[at[j]], ActAll(es, actions, n)[j]))
  {
    hide Act;
    if n == 0 {
      at := seq(|es|, i => i);
    } else {
      var before := ActAll(es, actions, n - 1);
      var first := DeletionsKeepMarks(es, actions, n - 1);
      var second := ActIsExact(before, actions[n - 1]);
      at := seq(|second|, i requires 0 <= i < |second| => first[second[i]]);
      forall j | 0 <= j < |at| && es[at[j]].status != 3
        ensures KeepsMarks(es[at[j]], ActAll(es, actions, n)[j])
      {
        assert KeepsMarks(es[at[j]], before[second[j]]);
        assert Becomes(before, actions[n - 1], second[j], ActAll(es, actions, n)[j]);
      }
    }
  }

  class Channel {
    const json: JsonArray
    var key: string
    var size: int
    var marks: Marks

    constructor (json: JsonArray, key: string)
      ensures Valid() && this.json == json && this.key == key && marks == NO_MARKS
    {
      this.json := json;
      this.key := key;
      size := CountKeys(json, key);
      marks := NO_MARKS;
    }

    predicate Valid()
      reads this
    {
      size == CountKeys(json, key) && StatusesBelow(marks, size)
    }

    function Keys(): seq<string>
      reads this
    {
      GetKeys(json, key)
    }

    function Entries(): seq<Entry>
      reads this
    {
      Table(Keys(), marks)
    }

    /** `Channel.Update` and the reload after it. */
    method Update(key: string, marks: Marks)
      modifies this
      ensures Valid() && this.key == SavedKey(old(this.key), key)
      ensures this.marks == Cut(marks, CountKeys(json, this.key))
      ensures Entries() == Table(Keys(), marks)
    {
      this.key := SavedKey(this.key, key);
      size := CountKeys(json, this.key);
      this.marks := Cut(marks, size);
      CutKeepsTable(json, this.key, marks);
    }

    method DisableKey(keyIndex: int) returns (ok: bool)
      requires Valid()
      modifies this
      ensures Valid() && key == old(key)
      ensures ok == (0 <= keyIndex < size)
      ensures Entries() == var es := old(Entries());
        if ok && keyIndex < |es| then es[keyIndex := es[keyIndex].(status := MANUALLY_DISABLED)] else es
    {
      hide GetKeys, CountKeys, Table, Cut;
      if keyIndex < 0 || keyIndex >= size {
        return false;
      }
      DisabledTable(Keys(), marks, keyIndex);
      Update(key, marks.(statuses := marks.statuses[keyIndex := MANUALLY_DISABLED]));
      return true;
    }

    method EnableKey(keyIndex: int) returns (ok: bool)
      requires Valid()
      modifies this
      ensures Valid() && key == old(key)
      ensures ok == (0 <= keyIndex < size)
      ensures Entries() == var es := old(Entries());
        if ok && keyIndex < |es| then es[keyIndex := Enable(es[keyIndex])] else es
    {
      hide GetKeys, CountKeys, Table, Cut;
      if keyIndex < 0 || keyIndex >= size {
        return false;
      }
      EnabledTable(Keys(), marks, keyIndex);
      Update(key, Marks(marks.statuses - {keyIndex}, marks.times - {keyIndex}, marks.reasons - {keyIndex}));
      return true;
    }

    method EnableAllKeys()
      requires Valid()
      modifies this
      ensures Valid() && key == old(key)
      ensures Entries() == AllEnabled(old(Entries()))
    {
      hide GetKeys, CountKeys, Table, Cut;
      UnmarkedTable(Keys(), marks, NO_MARKS);
      Update(key, NO_MARKS);
    }

    method DisableAllKeys() returns (ok: bool)
      requires Valid()
      modifies this
      ensures Valid() && key == old(key)
      ensures ok == exists i :: 0 <= i < size && StatusAt(old(marks), i) == ENABLED
      ensures Entries() == NoneEnabled(old(Entries()))
    {
      SizeIsKeyCountIff(json, key);
      hide GetKeys, CountKeys, Table, Cut, StatusAt;
      var m, disabledCount := DisableBelow(marks, size);
      AllDisabledTable(Keys(), marks, size, m);
      if disabledCount == 0 {
        AlreadyDisabled(Keys(), marks, size);
        return false;
      }
      Update(key, m);
      return true;
    }

    /** Refused for the last key. The list with the key removed is what the next load
        sees exactly when the remaining keys are read back. */
    method DeleteKey(keyIndex: int) returns (ok: bool)
      requires Valid()
      modifies this
      ensures Valid()
      ensures ok == (0 <= keyIndex < old(size) && RemoveAt(old(Entries()), keyIndex) != [])
      ensures !ok ==> unchanged(this)
      ensures ok ==>
        var es := RemoveAt(old(Entries()), keyIndex);
        Entries() == es <==> Saves(json, old(key), KeysOf(es))
    {
      hide GetKeys, CountKeys, Table, Cut, RemoveAt, Join, Saves;
      if keyIndex < 0 || keyIndex >= size {
        return false;
      }
      var remaining, m := WithoutKey(Keys(), marks, keyIndex);
      TableSize(remaining, m);
      if |remaining| == 0 {
        return false;
      }
      ghost var es := Table(remaining, m);
      Update(Join(remaining, '\n'), m);
      SavedTableIff(json, key, es, m);
      SavedKeysIff(json, old(key), remaining);
      return true;
    }

    /** Only automatically disabled keys go. When all are, nothing is left to write: the
        old string stays, and every key comes back enabled. */
    method DeleteDisabledKeys() returns (deleted: nat)
      requires Valid()
      modifies this
      ensures Valid()
      ensures deleted == |old(Entries())| - |NotAutoDisabled(old(Entries()), |old(Entries())|)|
      ensures deleted == 0 ==> unchanged(this)
      ensures deleted > 0 ==>
        var es := NotAutoDisabled(old(Entries()), |old(Entries())|);
        Entries() == es <==> Saves(json, old(key), KeysOf(es))
      ensures deleted > 0 && NotAutoDisabled(old(Entries()), |old(Entries())|) == [] ==>
        key == old(key) && Entries() == AllEnabled(old(Entries()))
    {
      hide GetKeys, CountKeys, Table, Cut, NotAutoDisabled, Join, Saves;
      var remaining, m;
      remaining, m, deleted := WithoutDisabled(Keys(), marks);
      TableSize(Keys(), marks);
      TableSize(remaining, m);
      if deleted == 0 {
        return;
      }
      ghost var es := Table(remaining, m);
      if remaining == [] {
        assert Join(remaining, '\n') == "" by { JoinNothing(); }
        UnmarkedTable(Keys(), marks, m);
      }
      Update(Join(remaining, '\n'), m);
      SavedTableIff(json, key, es, m);
      SavedKeysIff(json, old(key), remaining);
    }

    /** The append mode of `UpdateChannel`; refused for a Vertex array that does not parse. */
    method AppendKeys(input: string, vertex: Option<VertexArray>) returns (ok: bool)
      requires Valid()
      modifies this
      ensures Valid()
      ensures ok == (old(key) == "" || InputKeys(vertex, input).Some?)
      ensures vertex.None? ==> ok && InputKeys(vertex, input).value == Split(input, '\n')
      ensures !ok ==> unchanged(this)
      ensures old(key) == "" ==> key == input
      ensures ok && old(key) != "" ==>
        var kept := Existing(json, old(key));
        var added := NewKeys(kept, InputKeys(vertex, input).value);
        && (Keys() == kept + added <==> Saves(json, old(key), kept + added))
        && (Keys() == kept + added && kept == old(Keys()) && old(size) == |kept| ==>
              Extends(Entries(), old(Entries()), added))
    {
      hide GetKeys, CountKeys, Table, Cut, Join, Saves, Existing, NewKeys, Extends, InputKeys, Split;
      InputKeysIff(vertex, input);
      if key == "" {
        Update(input, marks);
        return true;
      }
      var existing := Existing(json, key);
      var keys := InputKeys(vertex, input);
      if keys.None? {
        return false;
      }
      var added := CollectNewKeys(existing, keys.value);
      var m := marks;
      Update(Join(existing + added, '\n'), m);
      SavedKeysIff(json, old(key), existing + added);
      if StatusesBelow(m, |existing|) {
        ExtendedTable(existing, added, m);
      }
      return true;
    }

    /** The get_key_status action. */
    method GetKeyStatus(page: int, pageSize: int, status: Option<int>, shorten: Shorten)
      returns (rows: seq<Row>, total: nat, shown: nat, size: nat, totalPages: nat, enabled: nat, manual: nat, auto: nat)
      ensures size == (if pageSize <= 0 then 50 else pageSize) && size > 0
      ensures var all := Rows(Entries(), status, shorten, |Entries()|);
        && total == |all| && totalPages == TotalPages(|all|, size)
        && shown == (if page <= 0 then 1 else if page > totalPages then totalPages else page)
        && shown > 0 && rows == Page(all, shown, size)
      ensures enabled == Count(Entries(), ENABLED, |Entries()|)
      ensures manual == Count(Entries(), MANUALLY_DISABLED, |Entries()|)
      ensures auto == Count(Entries(), AUTO_DISABLED, |Entries()|)
    {
      hide GetKeys, Table;
      size := if pageSize <= 0 then 50 else pageSize;
      var es := Entries();
      var all: seq<Row> := [];
      enabled, manual, auto := 0, 0, 0;
      for i := 0 to |es|
        invariant all == Rows(es, status, shorten, i)
        invariant enabled == Count(es, ENABLED, i)
        invariant manual == Count(es, MANUALLY_DISABLED, i)
        invariant auto == Count(es, AUTO_DISABLED, i)
      {
        var e := es[i];
        if e.status == ENABLED {
          enabled := enabled + 1;
        } else if e.status == MANUALLY_DISABLED {
          manual := manual + 1;
        } else if e.status == AUTO_DISABLED {
          auto := auto + 1;
        }
        if Wanted(status, e) {
          all := all + [RowOf(e, i, shorten)];
        }
      }
      total := |all|;
      totalPages := TotalPages(total, size);
      shown := if page <= 0 then 1 else if page > totalPages then totalPages else page;
      rows := Page(all, shown, size);
    }

    /** `ManageMultiKeys` for the actions that change something. */
    method Manage(a: Action)
      requires Valid() && PlainEntries(Entries())
      modifies this
      ensures Valid() && PlainEntries(Entries()) && Entries() == Act(old(Entries()), a)
    {
      ghost var es := Entries();
      TableSize(Keys(), marks);
      SizeIsKeyCountIff(json, key);
      assert size == |es| by { assert es != []; }
      ActKeepsPlain(es, a);
      if a.ActDelete? {
        RemovedSaves(json, key, es, a.index);
      } else if a.ActDeleteDisabled? {
        FilteredSaves(json, key, es);
      }
      hide GetKeys, CountKeys, Table, PlainKey, Saves, Join, RemoveAt, NotAutoDisabled, PlainEntries, KeysOf;
      hide AllEnabled, NoneEnabled;
      match a {
        case ActDisable(i) => var _ := DisableKey(i);
        case ActEnable(i) => var _ := EnableKey(i);
        case ActEnableAll => EnableAllKeys();
        case ActDisableAll => var _ := DisableAllKeys();
        case ActDelete(i) => var _ := DeleteKey(i);
        case ActDeleteDisabled => var _ := DeleteDisabledKeys();
      }
    }

    /** Any run of actions is the same run on the list of entries: every key that is left
        has the status, time and reason the actions gave it, whatever its index became. */
    method ManageAll(actions: seq<Action>)
      requires Valid() && PlainEntries(Entries())
      modifies this
      ensures Valid() && PlainEntries(Entries()) && Entries() == ActAll(old(Entries()), actions, |actions|)
    {
      for n := 0 to |actions|
        invariant Valid() && PlainEntries(Entries()) && Entries() == ActAll(old(Entries()), actions, n)
      {
        hide GetKeys, CountKeys, Table, PlainEntries, Act;
        Manage(actions[n]);
      }
    }
  }
}
