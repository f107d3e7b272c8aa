/**
 * The cafeteria list of calculator/cafeterias.py (and of its copy
 * meal_calculate/calculator/cafeterias.py): reading entries from decoded
 * JSON records, the built-in defaults, sorting by name, and the lookups of
 * a cafeteria's name and menu URL by identifier.
 *
 * The module global `CAFETERIAS` is passed to the lookups as a parameter,
 * and the contents of the data file are given already decoded: `None`
 * stands for a missing file or one that is not valid JSON.
 */
module Cafeterias {
  import opened Wrappers
  import opened Text

  /** A decoded JSON value; floats, arrays and objects are not modelled. */
  datatype JsonValue = JNull | JBool(b: bool) | JInt(i: int) | JString(s: string)

  /** One decoded entry of the data file, a JSON object. */
  type Record = map<string, JsonValue>

  /** A cafeteria: the identifier used in its menu URL, and its display name. */
  datatype Cafeteria = Cafeteria(identifier: string, name: string)

  /** The part of `_MENU_BASE_URL` before the `{id}` placeholder. */
  const BaseUrl: string := "https://west2-univ.jp/sp/menu.php?t="

  /** `Cafeteria.menu_url`: the identifier substituted into the URL template. */
  function MenuUrl(c: Cafeteria): (url: string)
    ensures |url| == |BaseUrl| + |c.identifier|
    ensures url[..|BaseUrl|] == BaseUrl && url[|BaseUrl|..] == c.identifier
  {
    BaseUrl + c.identifier
  }

  /** Different identifiers give different menu URLs. */
  lemma MenuUrlInjective(a: Cafeteria, b: Cafeteria)
    requires MenuUrl(a) == MenuUrl(b)
    ensures a.identifier == b.identifier
  {
    assert MenuUrl(a)[|BaseUrl|..] == MenuUrl(b)[|BaseUrl|..];
  }

  /** `entry.get(key)`. */
  function Get(entry: Record, key: string): Option<JsonValue> {
    if key in entry then Some(entry[key]) else None
  }

  /** Python truth value of a decoded value; an absent key reads as `None`. */
  predicate Truthy(v: Option<JsonValue>) {
    match v
    case None => false
    case Some(JNull) => false
    case Some(JBool(b)) => b
    case Some(JInt(i)) => i != 0
    case Some(JString(s)) => s != ""
  }

  /** Python `str()` of a decoded value. */
  function PyStr(v: JsonValue): string {
    match v
    case JNull => "None"
    case JBool(b) => if b then "True" else "False"
    case JInt(i) => IntToString(i)
    case JString(s) => s
  }

  /** `str(a or b or ... or "")`: the text of the first truthy value, or "" when none is. */
  function OrText(vs: seq<Option<JsonValue>>): (r: string)
    ensures (forall k :: 0 <= k < |vs| ==> !Truthy(vs[k])) ==> r == ""
    ensures forall k ::
              (0 <= k < |vs| && Truthy(vs[k]) && forall j :: 0 <= j < k ==> !Truthy(vs[j]))
              ==> r == PyStr(vs[k].value)
  {
    if vs == [] then ""
    else if Truthy(vs[0]) then PyStr(vs[0].value)
    else OrText(vs[1..])
  }

  /** The stripped identifier of an entry: "id", or "identifier" when "id" is missing or falsy. */
  function EntryIdentifier(entry: Record): string {
    Strip(OrText([Get(entry, "id"), Get(entry, "identifier")]))
  }

  /** The stripped name of an entry. */
  function EntryName(entry: Record): string {
    Strip(OrText([Get(entry, "name")]))
  }

  /** The cafeteria an entry describes, or `None` when its identifier or name is empty. */
  function EntryCafeteria(entry: Record): (r: Option<Cafeteria>)
    ensures r.Some? <==> EntryIdentifier(entry) != "" && EntryName(entry) != ""
    ensures r.Some? ==> r.value == Cafeteria(EntryIdentifier(entry), EntryName(entry))
  {
    var identifier := EntryIdentifier(entry);
    var name := EntryName(entry);
    if identifier == "" || name == "" then None else Some(Cafeteria(identifier, name))
  }

  /** What each entry of the file describes, entry by entry. */
  function Entries(records: seq<Record>): (r: seq<Option<Cafeteria>>)
    ensures |r| == |records|
    ensures forall k :: 0 <= k < |r| ==> r[k] == EntryCafeteria(records[k])
  {
    seq(|records|, k requires 0 <= k < |records| => EntryCafeteria(records[k]))
  }

  /** The cafeterias present in `opts`, in order. */
  function Present(opts: seq<Option<Cafeteria>>): seq<Cafeteria> {
    if opts == [] then []
    else Present(opts[..|opts| - 1]) + (match opts[|opts| - 1] case None => [] case Some(c) => [c])
  }

  /** The cafeterias of the entries that have both an identifier and a name, in file order. */
  function Filtered(records: seq<Record>): seq<Cafeteria> {
    Present(Entries(records))
  }

  /** A cafeteria read from the file has a non-empty identifier and name with no surrounding whitespace. */
  predicate Clean(c: Cafeteria) {
    c.identifier != "" && IsStripped(c.identifier) && c.name != "" && IsStripped(c.name)
  }

  lemma {:induction false} PresentClean(opts: seq<Option<Cafeteria>>)
    requires forall k :: 0 <= k < |opts| && opts[k].Some? ==> Clean(opts[k].value)
    ensures forall k :: 0 <= k < |Present(opts)| ==> Clean(Present(opts)[k])
    decreases |opts|
  {
    if opts != [] {
      PresentClean(opts[..|opts| - 1]);
    }
  }

  lemma FilteredClean(records: seq<Record>)
    ensures forall k :: 0 <= k < |Filtered(records)| ==> Clean(Filtered(records)[k])
  {
    var opts := Entries(records);
    forall k | 0 <= k < |opts| && opts[k].Some?
      ensures Clean(opts[k].value)
    {
      assert opts[k] == EntryCafeteria(records[k]);
    }
    PresentClean(opts);
  }

  lemma {:induction false} PresentAppend(a: seq<Option<Cafeteria>>, b: seq<Option<Cafeteria>>)
    ensures Present(a + b) == Present(a) + Present(b)
    decreases |b|
  {
    if b == [] {
      assert a + b == a;
    } else {
      var b' := b[..|b| - 1];
      PresentAppend(a, b');
      assert (a + b)[..|a + b| - 1] == a + b';
    }
  }

  /** Entries are filtered one by one: the cafeterias of a prefix of the file come first. */
  lemma FilteredAppend(a: seq<Record>, b: seq<Record>)
    ensures Filtered(a + b) == Filtered(a) + Filtered(b)
  {
    var ea, eb := Entries(a), Entries(b);
    forall k | 0 <= k < |a + b|
      ensures Entries(a + b)[k] == (ea + eb)[k]
    {
      if k < |a| {
        assert (a + b)[k] == a[k];
      } else {
        assert (a + b)[k] == b[k - |a|];
      }
    }
    assert Entries(a + b) == ea + eb;
    PresentAppend(ea, eb);
  }

  /** One entry on its own yields its cafeteria when it has both an identifier and a name, and nothing otherwise. */
  lemma FilteredSingle(entry: Record)
    ensures Filtered([entry]) == if EntryCafeteria(entry).Some? then [EntryCafeteria(entry).value] else []
  {
    var opts := Entries([entry]);
    assert opts[..0] == [] && opts[0] == EntryCafeteria(entry);
    assert Present(opts) == [] + (match opts[0] case None => [] case Some(c) => [c]);
  }

  /**
   * `_load_from_file`: no cafeterias when the file is missing or not valid
   * JSON; otherwise each entry with both an identifier and a name is
   * appended, in file order.
   */
  method LoadFromFile(data: Option<seq<Record>>) returns (cafs: seq<Cafeteria>)
    ensures data.None? ==> cafs == []
    ensures data.Some? ==> cafs == Filtered(data.value)
  {
    if data.None? {
      return [];
    }
    var records := data.value;
    cafs := [];
    var i := 0;
    assert Entries(records)[..0] == [];
    while i < |records|
      invariant 0 <= i <= |records|
      invariant cafs == Present(Entries(records)[..i])
    {
      var entry := records[i];
      ghost var opts := Entries(records)[..i + 1];
      assert opts[..i] == Entries(records)[..i] && opts[i] == EntryCafeteria(entry);
      var identifier := EntryIdentifier(entry);
      var name := EntryName(entry);
      if identifier != "" && name != "" {
        cafs := cafs + [Cafeteria(identifier, name)];
      }
      assert cafs == Present(opts);
      i := i + 1;
      assert opts == Entries(records)[..i];
    }
    assert Entries(records)[..i] == Entries(records);
  }

  /** `DEFAULT_CAFETERIAS`, in declaration order. */
  const Defaults: seq<(string, string)> := [
    ("650111", "中央食堂"),
    ("650112", "吉田食堂"),
    ("650113", "北部食堂"),
    ("650115", "南部食堂"),
    ("650116", "宇治食堂"),
    ("650118", "カフェテリア・ルネ"),
    ("650120", "桂セレネ")
  ]

  /** `_build_default`: one cafeteria per default entry, in declaration order. */
  function BuildDefault(): (r: seq<Cafeteria>)
    ensures |r| == |Defaults| == 7
    ensures forall k :: 0 <= k < |r| ==> r[k] == Cafeteria(Defaults[k].0, Defaults[k].1)
  {
    seq(|Defaults|, k requires 0 <= k < |Defaults| => Cafeteria(Defaults[k].0, Defaults[k].1))
  }

  /** `a` sorts no later than `b`: not `b.name < a.name`. */
  predicate NameLe(a: Cafeteria, b: Cafeteria) {
    !Less(b.name, a.name)
  }

  lemma NameLeTransitive(a: Cafeteria, b: Cafeteria, c: Cafeteria)
    requires NameLe(a, b) && NameLe(b, c)
    ensures NameLe(a, c)
  {
    LessTotal(a.name, b.name);
    LessTotal(b.name, c.name);
    if Less(c.name, a.name) {
      if a.name == b.name {
        LessAsymmetric(c.name, b.name);
      } else if b.name == c.name {
        LessAsymmetric(b.name, a.name);
      } else {
        LessTransitive(a.name, b.name, c.name);
        LessAsymmetric(a.name, c.name);
      }
    }
  }

  /** Non-decreasing by name, as `sorted(..., key=lambda c: c.name)` leaves a list. */
  predicate Sorted(s: seq<Cafeteria>) {
    forall i, j :: 0 <= i < j < |s| ==> NameLe(s[i], s[j])
  }

  /** The entries of `s` called `n`, in order. */
  function WithName(s: seq<Cafeteria>, n: string): seq<Cafeteria> {
    if s == [] then []
    else (if s[0].name == n then [s[0]] else []) + WithName(s[1..], n)
  }

  lemma {:induction false} WithNameAppend(a: seq<Cafeteria>, b: seq<Cafeteria>, n: string)
    ensures WithName(a + b, n) == WithName(a, n) + WithName(b, n)
    decreases |a|
  {
    if a == [] {
      assert a + b == b;
    } else {
      WithNameAppend(a[1..], b, n);
      var head := if a[0].name == n then [a[0]] else [];
      assert (a + b)[1..] == a[1..] + b;
      assert (a + b)[0] == a[0];
      assert WithName(a + b, n) == head + WithName(a[1..] + b, n);
      assert head + (WithName(a[1..], n) + WithName(b, n)) == (head + WithName(a[1..], n)) + WithName(b, n);
    }
  }

  /** `x` placed before the first entry whose name is not below its own. */
  function Insert(x: Cafeteria, s: seq<Cafeteria>): (r: seq<Cafeteria>)
    ensures multiset(r) == multiset(s) + multiset{x}
  {
    if s == [] || !Less(s[0].name, x.name) then [x] + s
    else
      assert s == [s[0]] + s[1..];
      [s[0]] + Insert(x, s[1..])
  }

  lemma {:induction false} InsertSorted(x: Cafeteria, s: seq<Cafeteria>)
    requires Sorted(s)
    ensures Sorted(Insert(x, s))
    decreases |s|
  {
    var r := Insert(x, s);
    if s == [] || !Less(s[0].name, x.name) {
      forall j | 1 <= j < |r|
        ensures NameLe(x, r[j])
      {
        if j == 1 {
          LessIrreflexive(x.name);
        } else {
          NameLeTransitive(x, s[0], r[j]);
        }
      }
    } else {
      InsertSorted(x, s[1..]);
      var tail := Insert(x, s[1..]);
      forall j | 0 <= j < |tail|
        ensures NameLe(s[0], tail[j])
      {
        assert tail[j] in multiset(tail);
        if tail[j] == x {
          LessAsymmetric(s[0].name, x.name);
        } else {
          assert tail[j] in multiset(s[1..]);
          var k :| 0 <= k < |s[1..]| && s[1..][k] == tail[j];
          assert s[k + 1] == tail[j];
        }
      }
    }
  }

  /** Inserting into a sorted list puts `x` before the entries of equal name, as if it came first. */
  lemma {:induction false} InsertWithName(x: Cafeteria, s: seq<Cafeteria>, n: string)
    ensures WithName(Insert(x, s), n) == WithName([x] + s, n)
    decreases |s|
  {
    if s != [] && Less(s[0].name, x.name) {
      InsertWithName(x, s[1..], n);
      var tail := Insert(x, s[1..]);
      WithNameAppend([s[0]], tail, n);
      WithNameAppend([x], s[1..], n);
      WithNameAppend([s[0]], s[1..], n);
      WithNameAppend([x], s, n);
      assert [s[0]] + s[1..] == s;
      if x.name == n {
        LessIrreflexive(x.name);
      }
    }
  }

  /** `sorted(cafeterias, key=lambda c: c.name)`, a stable sort by name. */
  function SortByName(s: seq<Cafeteria>): (r: seq<Cafeteria>)
    ensures multiset(r) == multiset(s)
  {
    if s == [] then []
    else
      assert s == [s[0]] + s[1..];
      Insert(s[0], SortByName(s[1..]))
  }

  lemma {:induction false} SortByNameSorted(s: seq<Cafeteria>)
    ensures Sorted(SortByName(s))
    decreases |s|
  {
    if s != [] {
      SortByNameSorted(s[1..]);
      InsertSorted(s[0], SortByName(s[1..]));
    }
  }

  /** The sort is stable: the entries sharing any one name keep their relative order. */
  lemma {:induction false} SortByNameStable(s: seq<Cafeteria>, n: string)
    ensures WithName(SortByName(s), n) == WithName(s, n)
    decreases |s|
  {
    if s != [] {
      SortByNameStable(s[1..], n);
      InsertWithName(s[0], SortByName(s[1..]), n);
      WithNameAppend([s[0]], SortByName(s[1..]), n);
      WithNameAppend([s[0]], s[1..], n);
      assert [s[0]] + s[1..] == s;
    }
  }

  /** The list `load_cafeterias` sorts: the file's cafeterias, or the defaults when there are none. */
  function Source(data: Option<seq<Record>>): seq<Cafeteria> {
    if data.Some? && Filtered(data.value) != [] then Filtered(data.value) else BuildDefault()
  }

  /**
   * `load_cafeterias`: the cafeterias read from the file sorted by name,
   * or, when the file yields none, the defaults sorted by name; never empty.
   */
  method LoadCafeterias(data: Option<seq<Record>>) returns (r: seq<Cafeteria>)
    ensures r == SortByName(Source(data))
    ensures r != []
    ensures Sorted(r) && multiset(r) == multiset(Source(data))
  {
    var cafeterias := LoadFromFile(data);
    if cafeterias != [] {
      r := SortByName(cafeterias);
    } else {
      r := SortByName(BuildDefault());
    }
    SortByNameSorted(Source(data));
    assert |r| == |Source(data)| by {
      assert |multiset(r)| == |multiset(Source(data))|;
    }
  }

  /** `cafeteria_choices`: (identifier, name) for each cafeteria, in list order. */
  function CafeteriaChoices(cafs: seq<Cafeteria>): (r: seq<(string, string)>)
    ensures |r| == |cafs|
    ensures forall k :: 0 <= k < |r| ==> r[k] == (cafs[k].identifier, cafs[k].name)
  {
    seq(|cafs|, k requires 0 <= k < |cafs| => (cafs[k].identifier, cafs[k].name))
  }

  /** The index of the first cafeteria with this identifier, if any. */
  function FindFirst(cafs: seq<Cafeteria>, identifier: string): (r: Option<nat>)
    ensures r.None? <==> forall k :: 0 <= k < |cafs| ==> cafs[k].identifier != identifier
    ensures r.Some? ==> r.value < |cafs| && cafs[r.value].identifier == identifier
                        && forall k :: 0 <= k < r.value ==> cafs[k].identifier != identifier
  {
    if cafs == [] then None
    else if cafs[0].identifier == identifier then Some(0)
    else match FindFirst(cafs[1..], identifier)
      case None => None
      case Some(k) => Some(k + 1)
  }

  /**
   * `cafeteria_name`: the name of the first cafeteria with this identifier,
   * or the identifier itself when none has it.
   */
  function CafeteriaName(cafs: seq<Cafeteria>, identifier: string): (r: string)
    ensures (forall k :: 0 <= k < |cafs| ==> cafs[k].identifier != identifier) ==> r == identifier
    ensures forall k ::
              (0 <= k < |cafs| && cafs[k].identifier == identifier
               && forall j :: 0 <= j < k ==> cafs[j].identifier != identifier)
              ==> r == cafs[k].name
  {
    if cafs == [] then identifier
    else if cafs[0].identifier == identifier then cafs[0].name
    else CafeteriaName(cafs[1..], identifier)
  }

  /**
   * `cafeteria_url`: the menu URL of the first cafeteria with this
   * identifier, or the template filled with the identifier when none has
   * it; both are the base URL followed by the identifier.
   */
  function CafeteriaUrl(cafs: seq<Cafeteria>, identifier: string): (r: string)
    ensures r == BaseUrl + identifier
  {
    match FindFirst(cafs, identifier)
    case Some(k) => MenuUrl(cafs[k])
    case None => BaseUrl + identifier
  }
}
