/**
 Normal forms of parameter values (canonical.py, `_normalize`). NFC is an abstract idempotent map `nfc`;
 `None` stands for a raised CanonicalizationError.
 */
module Canonical {
  import opened Base
  import opened Ordering

  datatype Key = Text(text: string) | OtherKey(id: int)

  datatype Number = Finite(value: real) | NonFinite

  datatype Entry = Entry(key: Key, value: Value)

  /** A Python value; a dictionary lists its entries in insertion order. */
  datatype Value =
    | Null
    | Bool(flag: bool)
    | Int(n: int)
    | Float(x: Number)
    | Str(s: string)
    | List(items: seq<Value>)      // list or tuple
    | Dict(entries: seq<Entry>)
    | Unsupported

  /** A normal form; Python compares dictionaries as maps. */
  datatype Json =
    | JNull
    | JBool(flag: bool)
    | JInt(n: int)
    | JStr(s: string)
    | JList(items: seq<Json>)
    | JObject(members: map<string, Json>)

  type Nfc = string -> string

  ghost predicate Normaliser(nfc: Nfc) {
    forall s :: nfc(nfc(s)) == nfc(s)
  }

  predicate OneKeyTwice(entries: seq<Entry>) {
    exists i, j | 0 <= i < j < |entries| :: entries[i].key == entries[j].key
  }

  /** What Python guarantees of any dictionary: its keys are distinct, at every depth. */
  ghost predicate Proper(v: Value) {
    match v
    case List(items) => forall i | 0 <= i < |items| :: Proper(items[i])
    case Dict(entries) =>
      && !OneKeyTwice(entries)
      && forall i | 0 <= i < |entries| :: Proper(entries[i].value)
    case _ => true
  }

  predicate TextKeys(entries: seq<Entry>) {
    forall i | 0 <= i < |entries| :: entries[i].key.Text?
  }

  /** Two keys of the object have one NFC form. */
  predicate Clash(nfc: Nfc, entries: seq<Entry>) {
    exists i, j | 0 <= i < j < |entries| ::
      entries[i].key.Text? && entries[j].key.Text? && nfc(entries[i].key.text) == nfc(entries[j].key.text)
  }

  ghost predicate Supported(nfc: Nfc, v: Value) {
    match v
    case Float(x) => x.Finite? && x.value == x.value.Floor as real
    case List(items) => forall i | 0 <= i < |items| :: Supported(nfc, items[i])
    case Dict(entries) =>
      && TextKeys(entries) && !Clash(nfc, entries)
      && forall i | 0 <= i < |entries| :: Supported(nfc, entries[i].value)
    case Unsupported => false
    case _ => true
  }

  ghost function Form(nfc: Nfc, v: Value): Json
    requires Supported(nfc, v)
  {
    match v
    case Null => JNull
    case Bool(b) => JBool(b)
    case Int(n) => JInt(n)
    case Float(x) => JInt(x.value.Floor)
    case Str(s) => JStr(nfc(s))
    case List(items) => JList(seq(|items|, i requires 0 <= i < |items| => Form(nfc, items[i])))
    case Dict(entries) => JObject(Members(nfc, v, |entries|))
  }

  /** The members of the first `n` entries. */
  ghost function Members(nfc: Nfc, v: Value, n: nat): map<string, Json>
    requires v.Dict? && n <= |v.entries| && TextKeys(v.entries)
    requires forall i | 0 <= i < n :: Supported(nfc, v.entries[i].value)
    decreases v, n
  {
    if n == 0 then map[]
    else
      var e := v.entries[n - 1];
      Members(nfc, v, n - 1)[nfc(e.key.text) := Form(nfc, e.value)]
  }

  /** `_normalize` as a function of the value. */
  ghost function Canon(nfc: Nfc, v: Value): Option<Json> {
    if Supported(nfc, v) then Some(Form(nfc, v)) else None
  }

  /** Some key of the object has the NFC form `k`. */
  ghost predicate HasForm(nfc: Nfc, entries: seq<Entry>, k: string) {
    exists i | 0 <= i < |entries| :: entries[i].key.Text? && nfc(entries[i].key.text) == k
  }

  ghost predicate Maps(nfc: Nfc, m: map<string, Json>, e: Entry) {
    e.key.Text? && nfc(e.key.text) in m && Canon(nfc, e.value) == Some(m[nfc(e.key.text)])
  }

  /** The members are exactly the entries under the NFC forms of their keys. */
  ghost predicate Lists(nfc: Nfc, m: map<string, Json>, entries: seq<Entry>) {
    && (forall i | 0 <= i < |entries| :: Maps(nfc, m, entries[i]))
    && (forall k | k in m :: HasForm(nfc, entries, k))
  }

  lemma LastIsNew(nfc: Nfc, entries: seq<Entry>, n: nat)
    requires 0 < n <= |entries| && !Clash(nfc, entries) && TextKeys(entries)
    ensures !HasForm(nfc, entries[..n - 1], nfc(entries[n - 1].key.text))
  {
    assert forall i | 0 <= i < n - 1 :: entries[..n - 1][i] == entries[i];
  }

  lemma HasFormGrows(nfc: Nfc, entries: seq<Entry>, n: nat, k: string)
    requires 0 < n <= |entries| && TextKeys(entries)
    ensures HasForm(nfc, entries[..n], k) <==> HasForm(nfc, entries[..n - 1], k) || nfc(entries[n - 1].key.text) == k
  {
    assert forall i | 0 <= i < n - 1 :: entries[..n - 1][i] == entries[..n][i];
  }

  lemma StaysMapped(nfc: Nfc, m: map<string, Json>, wider: map<string, Json>, entries: seq<Entry>, n: nat, i: nat)
    requires i < n - 1 < |entries| && TextKeys(entries) && Lists(nfc, m, entries[..n - 1])
    requires !HasForm(nfc, entries[..n - 1], nfc(entries[n - 1].key.text))
    requires forall k | k in m && k != nfc(entries[n - 1].key.text) :: k in wider && wider[k] == m[k]
    ensures Maps(nfc, wider, entries[..n][i])
  {
    var e := entries[..n - 1][i];
    assert e == entries[..n][i] && Maps(nfc, m, e);
    assert HasForm(nfc, entries[..n - 1], nfc(e.key.text));
    hide Canon;
  }

  lemma ListGrows(nfc: Nfc, m: map<string, Json>, entries: seq<Entry>, n: nat, x: Json)
    requires 0 < n <= |entries| && TextKeys(entries) && Lists(nfc, m, entries[..n - 1])
    requires !HasForm(nfc, entries[..n - 1], nfc(entries[n - 1].key.text))
    requires Canon(nfc, entries[n - 1].value) == Some(x)
    ensures Lists(nfc, m[nfc(entries[n - 1].key.text) := x], entries[..n])
  {
    hide Canon;
    var wider := m[nfc(entries[n - 1].key.text) := x];
    forall k | k in wider ensures HasForm(nfc, entries[..n], k) {
      HasFormGrows(nfc, entries, n, k);
    }
    forall i | 0 <= i < n ensures Maps(nfc, wider, entries[..n][i]) {
      if i < n - 1 {
        StaysMapped(nfc, m, wider, entries, n, i);
      }
    }
  }

  lemma {:induction false} MembersList(nfc: Nfc, v: Value, n: nat)
    requires v.Dict? && n <= |v.entries| && TextKeys(v.entries) && !Clash(nfc, v.entries)
    requires forall i | 0 <= i < n :: Supported(nfc, v.entries[i].value)
    ensures Lists(nfc, Members(nfc, v, n), v.entries[..n])
  {
    if n > 0 {
      LastIsNew(nfc, v.entries, n);
      MembersList(nfc, v, n - 1);
      hide Clash, Lists, HasForm, TextKeys;
      ListGrows(nfc, Members(nfc, v, n - 1), v.entries, n, Form(nfc, v.entries[n - 1].value));
    }
  }

  lemma ListedAlike(nfc: Nfc, m: map<string, Json>, n: map<string, Json>, entries: seq<Entry>)
    requires Lists(nfc, m, entries) && Lists(nfc, n, entries)
    ensures m == n
  {
    hide Canon;
    forall k ensures k in m <==> k in n {}
    forall k | k in m ensures n[k] == m[k] {
      assert HasForm(nfc, entries, k);
      var i :| 0 <= i < |entries| && entries[i].key.Text? && nfc(entries[i].key.text) == k;
      assert Maps(nfc, m, entries[i]) && Maps(nfc, n, entries[i]);
    }
  }

  lemma AllSupported(nfc: Nfc, entries: seq<Entry>, m: map<string, Json>)
    requires Lists(nfc, m, entries)
    ensures forall i | 0 <= i < |entries| :: Supported(nfc, entries[i].value)
  {
    hide Supported, Form;
    forall i | 0 <= i < |entries| ensures Supported(nfc, entries[i].value) {
      assert Maps(nfc, m, entries[i]);
    }
  }

  /** The normal form of a dictionary is whatever lists its entries. */
  lemma ListedForm(nfc: Nfc, entries: seq<Entry>, m: map<string, Json>)
    ensures TextKeys(entries) && !Clash(nfc, entries) && Lists(nfc, m, entries) <==>
      Canon(nfc, Dict(entries)) == Some(JObject(m))
  {
    assert entries[..|entries|] == entries;
    if TextKeys(entries) && !Clash(nfc, entries) && Lists(nfc, m, entries) {
      AllSupported(nfc, entries, m);
      MembersList(nfc, Dict(entries), |entries|);
      hide Lists, Clash;
      ListedAlike(nfc, m, Members(nfc, Dict(entries), |entries|), entries);
    }
    if Canon(nfc, Dict(entries)) == Some(JObject(m)) {
      MembersList(nfc, Dict(entries), |entries|);
      hide Lists, Clash;
    }
  }

  // ----- The recursion that fills a dictionary per object -----

  predicate HasName(entries: seq<Entry>, name: string) {
    exists j | 0 <= j < |entries| :: entries[j].key == Text(name)
  }

  function Position(entries: seq<Entry>, name: string): (i: nat)
    requires HasName(entries, name)
    ensures i < |entries| && entries[i].key == Text(name)
  {
    if entries[0].key == Text(name) then 0
    else
      assert HasName(entries[1..], name) by {
        var j :| 0 <= j < |entries| && entries[j].key == Text(name);
        assert entries[1..][j - 1] == entries[j];
      }
      1 + Position(entries[1..], name)
  }

  /** `value[name]`. */
  function Lookup(entries: seq<Entry>, name: string): (v: Value)
    requires HasName(entries, name)
  {
    entries[Position(entries, name)].value
  }

  function Names(entries: seq<Entry>): set<string> {
    set i | 0 <= i < |entries| && entries[i].key.Text? :: entries[i].key.text
  }

  lemma NamesAreKeys(entries: seq<Entry>, name: string)
    ensures name in Names(entries) <==> HasName(entries, name)
  {
    if HasName(entries, name) {
      var j :| 0 <= j < |entries| && entries[j].key == Text(name);
      assert entries[j].key.text in Names(entries);
    }
  }

  /** One processed name. */
  ghost predicate Stored(nfc: Nfc, entries: seq<Entry>, out: map<string, Json>, name: string) {
    && HasName(entries, name)
    && nfc(name) in out
    && Canon(nfc, Lookup(entries, name)) == Some(out[nfc(name)])
  }

  ghost predicate FormOfOne(nfc: Nfc, done: seq<string>, k: string) {
    exists j | 0 <= j < |done| :: nfc(done[j]) == k
  }

  /** `out` after the names in `done`. */
  ghost predicate Filled(nfc: Nfc, entries: seq<Entry>, done: seq<string>, out: map<string, Json>) {
    && (forall j | 0 <= j < |done| :: Stored(nfc, entries, out, done[j]))
    && (forall k | k in out :: FormOfOne(nfc, done, k))
    && (forall i, j | 0 <= i < j < |done| :: nfc(done[i]) != nfc(done[j]))
  }

  lemma FilledGrows(nfc: Nfc, entries: seq<Entry>, done: seq<string>, out: map<string, Json>, name: string, x: Json)
    requires Filled(nfc, entries, done, out) && HasName(entries, name) && nfc(name) !in out
    requires Canon(nfc, Lookup(entries, name)) == Some(x)
    ensures Filled(nfc, entries, done + [name], out[nfc(name) := x])
  {
    hide Canon, Lookup, HasName;
    var more, wider := done + [name], out[nfc(name) := x];
    forall j | 0 <= j < |more| ensures Stored(nfc, entries, wider, more[j]) && (j < |done| ==> nfc(more[j]) != nfc(name)) {
      if j < |done| {
        assert Stored(nfc, entries, out, done[j]) && more[j] == done[j];
      }
    }
    forall k | k in wider ensures FormOfOne(nfc, more, k) {
      if k in out {
        var j :| 0 <= j < |done| && nfc(done[j]) == k;
        assert more[j] == done[j];
      } else {
        assert more[|done|] == name;
      }
    }
  }

  /** A name whose NFC form is taken means two entries clash. */
  lemma TakenMeansClash(nfc: Nfc, entries: seq<Entry>, done: seq<string>, out: map<string, Json>, name: string)
    requires Filled(nfc, entries, done, out) && HasName(entries, name) && nfc(name) in out && name !in done
    ensures Clash(nfc, entries)
  {
    hide Canon;
    assert FormOfOne(nfc, done, nfc(name));
    var j :| 0 <= j < |done| && nfc(done[j]) == nfc(name);
    assert Stored(nfc, entries, out, done[j]);
    var a, b := Position(entries, done[j]), Position(entries, name);
    assert entries[a].key == Text(done[j]) && entries[b].key == Text(name) && a != b;
    if a < b {
      assert Clash(nfc, entries);
    } else {
      assert Clash(nfc, entries);
    }
  }

  /** Where a name stands among those processed. */
  lemma EntryIsDone(entries: seq<Entry>, done: seq<string>, i: nat) returns (j: nat)
    requires i < |entries| && entries[i].key.Text? && !OneKeyTwice(entries)
    requires forall name :: name in done <==> HasName(entries, name)
    ensures j < |done| && done[j] == entries[i].key.text
    ensures HasName(entries, done[j]) && Lookup(entries, done[j]) == entries[i].value
  {
    var name := entries[i].key.text;
    assert HasName(entries, name);
    j :| 0 <= j < |done| && done[j] == name;
    assert entries[Position(entries, name)].key == entries[i].key;
  }

  lemma FilledHasNoClash(nfc: Nfc, entries: seq<Entry>, done: seq<string>, out: map<string, Json>)
    requires Filled(nfc, entries, done, out) && !OneKeyTwice(entries) && TextKeys(entries)
    requires forall name :: name in done <==> HasName(entries, name)
    ensures !Clash(nfc, entries)
  {
    forall a, b | 0 <= a < b < |entries| ensures nfc(entries[a].key.text) != nfc(entries[b].key.text) {
      var i := EntryIsDone(entries, done, a);
      var j := EntryIsDone(entries, done, b);
      assert entries[a].key != entries[b].key;
      assert done[i] != done[j];
    }
  }

  /** When every name has been processed `out` lists the entries. */
  lemma FilledLists(nfc: Nfc, entries: seq<Entry>, done: seq<string>, out: map<string, Json>)
    requires Filled(nfc, entries, done, out) && !OneKeyTwice(entries) && TextKeys(entries)
    requires forall name :: name in done <==> HasName(entries, name)
    ensures Lists(nfc, out, entries)
  {
    hide Canon;
    forall i | 0 <= i < |entries| ensures Maps(nfc, out, entries[i]) {
      var j := EntryIsDone(entries, done, i);
      assert Stored(nfc, entries, out, done[j]);
    }
    forall k | k in out ensures HasForm(nfc, entries, k) {
      assert FormOfOne(nfc, done, k);
      var j :| 0 <= j < |done| && nfc(done[j]) == k;
      assert Stored(nfc, entries, out, done[j]);
      assert entries[Position(entries, done[j])].key == Text(done[j]);
    }
  }

  method Normalize(nfc: Nfc, v: Value) returns (r: Option<Json>)
    requires Proper(v)
    ensures r == Canon(nfc, v)
    decreases v
  {
    match v {
      case Null => return Some(JNull);
      case Bool(b) => return Some(JBool(b));
      case Int(n) => return Some(JInt(n));
      case Str(s) => return Some(JStr(nfc(s)));
      case Float(x) =>
        if !x.Finite? || x.value != x.value.Floor as real {
          return None;
        }
        return Some(JInt(x.value.Floor));
      case Dict(entries) => r := NormalizeDict(nfc, entries);
      case List(items) => r := NormalizeList(nfc, items);
      case Unsupported => return None;
    }
  }

  method NormalizeList(nfc: Nfc, items: seq<Value>) returns (r: Option<Json>)
    requires Proper(List(items))
    ensures r == Canon(nfc, List(items))
    decreases items
  {
    var out: seq<Json> := [];
    for i := 0 to |items|
      invariant |out| == i
      invariant forall j | 0 <= j < i :: Supported(nfc, items[j]) && out[j] == Form(nfc, items[j])
    {
      var x := Normalize(nfc, items[i]);
      if x.None? {
        return None;
      }
      out := out + [x.value];
    }
    assert out == seq(|items|, i requires 0 <= i < |items| => Form(nfc, items[i]));
    return Some(JList(out));
  }

  lemma FilledIsForm(nfc: Nfc, entries: seq<Entry>, done: seq<string>, out: map<string, Json>)
    requires Filled(nfc, entries, done, out) && !OneKeyTwice(entries) && TextKeys(entries)
    requires forall name :: name in done <==> HasName(entries, name)
    ensures Canon(nfc, Dict(entries)) == Some(JObject(out))
  {
    FilledHasNoClash(nfc, entries, done, out);
    FilledLists(nfc, entries, done, out);
    ListedForm(nfc, entries, out);
  }

  lemma UnsupportedEntry(nfc: Nfc, entries: seq<Entry>, name: string)
    requires HasName(entries, name) && Canon(nfc, Lookup(entries, name)).None?
    ensures Canon(nfc, Dict(entries)) == None
  {
    var p := Position(entries, name);
    assert !Supported(nfc, entries[p].value);
  }

  lemma SortedNames(entries: seq<Entry>)
    ensures forall name :: name in Sorted(Names(entries)) <==> HasName(entries, name)
    ensures forall i, j | 0 <= i < j < |Sorted(Names(entries))| :: Sorted(Names(entries))[i] != Sorted(Names(entries))[j]
  {
    SortedHasElements(Names(entries));
    SortedAscends(Names(entries));
    forall name ensures name in Names(entries) <==> HasName(entries, name) {
      NamesAreKeys(entries, name);
    }
    hide Sorted, Names, HasName, AtMost;
  }

  lemma LookupIsProper(entries: seq<Entry>, name: string)
    requires HasName(entries, name) && Proper(Dict(entries))
    ensures Proper(Lookup(entries, name)) && (entries decreases to Lookup(entries, name))
  {
    var p := Position(entries, name);
    assert Proper(entries[p].value);
  }

  /** The keys are taken in sorted order; two keys with one NFC form are rejected. */
  method NormalizeDict(nfc: Nfc, entries: seq<Entry>) returns (r: Option<Json>)
    requires Proper(Dict(entries))
    ensures r == Canon(nfc, Dict(entries))
    decreases entries
  {
    if exists i | 0 <= i < |entries| :: !entries[i].key.Text? {
      return None;
    }
    var names := Sorted(Names(entries));
    SortedNames(entries);
    var out: map<string, Json> := map[];
    assert !OneKeyTwice(entries);
    assert Filled(nfc, entries, names[..0], out);
    hide Proper, Filled, Names, Sorted, Lookup, HasName, OneKeyTwice, Form, Supported, Clash;
    for i := 0 to |names|
      invariant Filled(nfc, entries, names[..i], out)
    {
      var name := names[i];
      assert name in names;
      if nfc(name) in out {
        TakenMeansClash(nfc, entries, names[..i], out, name);
        ClashRejects(nfc, entries);
        return None;
      }
      LookupIsProper(entries, name);
      var x := Normalize(nfc, Lookup(entries, name));
      if x.None? {
        UnsupportedEntry(nfc, entries, name);
        return None;
      }
      FilledGrows(nfc, entries, names[..i], out, name, x.value);
      assert names[..i + 1] == names[..i] + [name];
      out := out[nfc(name) := x.value];
    }
    assert names[..|names|] == names;
    FilledIsForm(nfc, entries, names, out);
    return Some(JObject(out));
  }

  lemma ClashRejects(nfc: Nfc, entries: seq<Entry>)
    requires Clash(nfc, entries)
    ensures Canon(nfc, Dict(entries)) == None
  {}

  // ----- Scalars -----

  /** The number a value stands for. */
  function NumberOf(v: Value): Option<real> {
    match v
    case Int(n) => Some(n as real)
    case Float(Finite(x)) => Some(x)
    case _ => None
  }

  /** The scalars other than finite floats: unchanged up to NFC, or rejected. */
  lemma ScalarsExactly(nfc: Nfc, b: bool, n: int, s: string)
    ensures Canon(nfc, Null) == Some(JNull) && Canon(nfc, Bool(b)) == Some(JBool(b))
    ensures Canon(nfc, Int(n)) == Some(JInt(n))
    ensures Canon(nfc, Str(s)) == Some(JStr(nfc(s)))
    ensures Canon(nfc, Float(NonFinite)) == Canon(nfc, Unsupported) == None
  {}

  /** An integral float has the normal form of its integer. */
  lemma IntegralFloat(nfc: Nfc, n: int)
    ensures Canon(nfc, Float(Finite(n as real))) == Canon(nfc, Int(n)) == Some(JInt(n))
  {}

  /** A float is accepted exactly when its value is integral. */
  lemma FloatsExactly(nfc: Nfc, x: real)
    ensures Canon(nfc, Float(Finite(x))).Some? <==> x.Floor as real == x
  {}

  /** Two accepted numbers have one normal form exactly when they are equal as numbers. */
  lemma NumbersExactly(nfc: Nfc, v: Value, w: Value)
    requires NumberOf(v).Some? && NumberOf(w).Some? && Canon(nfc, v).Some? && Canon(nfc, w).Some?
    ensures Canon(nfc, v) == Canon(nfc, w) <==> NumberOf(v) == NumberOf(w)
    ensures Canon(nfc, v).value.JInt? && Canon(nfc, v).value.n as real == NumberOf(v).value
  {}

  /** A list has the normal form of its items, in order, or none when one of them has none. */
  lemma ListsExactly(nfc: Nfc, items: seq<Value>)
    ensures match Canon(nfc, List(items))
            case None => exists i :: 0 <= i < |items| && Canon(nfc, items[i]).None?
            case Some(j) => j.JList? && |j.items| == |items|
                            && forall i :: 0 <= i < |items| ==> Canon(nfc, items[i]) == Some(j.items[i])
  {
    if !Supported(nfc, List(items)) {
      var i :| 0 <= i < |items| && !Supported(nfc, items[i]);
      assert Canon(nfc, items[i]).None?;
    }
  }

  // ----- Idempotence -----

  /** The dictionary of an object's members, in ascending key order. */
  function AsValue(j: Json): Value {
    match j
    case JNull => Null
    case JBool(b) => Bool(b)
    case JInt(n) => Int(n)
    case JStr(s) => Str(s)
    case JList(items) => List(seq(|items|, i requires 0 <= i < |items| => AsValue(items[i])))
    case JObject(m) =>
      SortedHasElements(m.Keys);
      var keys := Sorted(m.Keys);
      Dict(seq(|keys|, i requires 0 <= i < |keys| => assert keys[i] in keys; Entry(Text(keys[i]), AsValue(m[keys[i]]))))
  }

  /** Every string and key of the normal form is its own NFC form. */
  ghost predicate Settled(nfc: Nfc, j: Json) {
    match j
    case JStr(s) => nfc(s) == s
    case JList(items) => forall i | 0 <= i < |items| :: Settled(nfc, items[i])
    case JObject(m) => forall k | k in m :: nfc(k) == k && Settled(nfc, m[k])
    case _ => true
  }

  lemma {:induction false} FormSettles(nfc: Nfc, v: Value)
    requires Normaliser(nfc) && Supported(nfc, v)
    ensures Settled(nfc, Form(nfc, v))
  {
    match v
    case List(items) =>
      forall i | 0 <= i < |items| ensures Settled(nfc, Form(nfc, items[i])) {
        FormSettles(nfc, items[i]);
      }
    case Dict(entries) =>
      var m := Members(nfc, v, |entries|);
      ListedForm(nfc, entries, m);
      forall k | k in m ensures nfc(k) == k && Settled(nfc, m[k]) {
        assert HasForm(nfc, entries, k);
        var i :| 0 <= i < |entries| && nfc(entries[i].key.text) == k;
        assert Maps(nfc, m, entries[i]);
        FormSettles(nfc, entries[i].value);
      }
    case _ =>
  }

  /** The entries of `AsValue(JObject(m))`. */
  lemma EntriesOfObject(m: map<string, Json>)
    ensures var keys, v := Sorted(m.Keys), AsValue(JObject(m));
            && v.Dict? && |v.entries| == |keys| && TextKeys(v.entries)
            && (forall i | 0 <= i < |keys| :: keys[i] in m && v.entries[i] == Entry(Text(keys[i]), AsValue(m[keys[i]])))
            && (forall k | k in m :: k in keys)
            && (forall i, j | 0 <= i < j < |keys| :: keys[i] != keys[j])
  {
    SortedHasElements(m.Keys);
    SortedAscends(m.Keys);
    var keys := Sorted(m.Keys);
    hide Sorted, AtMost;
    forall i | 0 <= i < |keys| ensures keys[i] in m {
      assert keys[i] in keys;
    }
  }

  /** A settled normal form, read as a value, is supported and is its own normal form. */
  lemma {:induction false} FormOfAsValue(nfc: Nfc, j: Json)
    requires Settled(nfc, j)
    ensures Canon(nfc, AsValue(j)) == Some(j)
  {
    match j
    case JList(items) =>
      var values := AsValue(j).items;
      forall i | 0 <= i < |items| ensures Supported(nfc, values[i]) && Form(nfc, values[i]) == items[i] {
        FormOfAsValue(nfc, items[i]);
      }
      assert Form(nfc, List(values)).items == items;
    case JObject(m) =>
      forall k | k in m ensures Canon(nfc, AsValue(m[k])) == Some(m[k]) {
        FormOfAsValue(nfc, m[k]);
      }
      EntriesOfObject(m);
      ObjectFormsItself(nfc, m, Sorted(m.Keys), AsValue(j).entries);
    case _ =>
  }

  lemma ObjectFormsItself(nfc: Nfc, m: map<string, Json>, keys: seq<string>, entries: seq<Entry>)
    requires |entries| == |keys| && TextKeys(entries)
    requires forall i | 0 <= i < |keys| :: keys[i] in m && entries[i].key == Text(keys[i])
                                           && nfc(keys[i]) == keys[i] && Canon(nfc, entries[i].value) == Some(m[keys[i]])
    requires forall k | k in m :: k in keys
    requires forall i, j | 0 <= i < j < |keys| :: keys[i] != keys[j]
    ensures Canon(nfc, Dict(entries)) == Some(JObject(m))
  {
    assert Lists(nfc, m, entries) by {
      forall i | 0 <= i < |entries| ensures Maps(nfc, m, entries[i]) {}
      forall k | k in m ensures HasForm(nfc, entries, k) {
        var i :| 0 <= i < |keys| && keys[i] == k;
        assert entries[i].key == Text(k);
      }
    }
    assert !Clash(nfc, entries);
    ListedForm(nfc, entries, m);
  }

  /** Normalisation is idempotent. */
  lemma Idempotent(nfc: Nfc, v: Value)
    requires Normaliser(nfc) && Canon(nfc, v).Some?
    ensures Canon(nfc, AsValue(Canon(nfc, v).value)) == Canon(nfc, v)
  {
    FormSettles(nfc, v);
    FormOfAsValue(nfc, Form(nfc, v));
  }

  // ----- Independence of key order -----

  ghost predicate HasAlike(e: Entry, entries: seq<Entry>)
    decreases e, 0
  {
    exists j | 0 <= j < |entries| :: entries[j].key == e.key && Alike(e.value, entries[j].value)
  }

  predicate HasKey(entries: seq<Entry>, key: Key) {
    exists j | 0 <= j < |entries| :: entries[j].key == key
  }

  /** Equal up to the order of dictionary entries, at every depth. */
  ghost predicate Alike(a: Value, b: Value)
    decreases a, 1
  {
    match a
    case List(items) =>
      b.List? && |b.items| == |items| && forall i | 0 <= i < |items| :: Alike(items[i], b.items[i])
    case Dict(entries) =>
      && b.Dict?
      && (forall i | 0 <= i < |entries| :: HasAlike(entries[i], b.entries))
      && (forall i | 0 <= i < |b.entries| :: HasKey(entries, b.entries[i].key))
    case _ => a == b
  }

  /** What the entries of one dictionary say about a reordering of them. */
  lemma AlikeEntry(entries: seq<Entry>, others: seq<Entry>, j: nat) returns (i: nat)
    requires Proper(Dict(others)) && Alike(Dict(entries), Dict(others)) && j < |others|
    ensures i < |entries| && entries[i].key == others[j].key && Alike(entries[i].value, others[j].value)
  {
    assert HasKey(entries, others[j].key);
    i :| 0 <= i < |entries| && entries[i].key == others[j].key;
    assert HasAlike(entries[i], others);
    var k :| 0 <= k < |others| && others[k].key == entries[i].key && Alike(entries[i].value, others[k].value);
    assert k == j;
  }

  /** The other dictionary has an entry with this key and the same normal form. */
  ghost predicate Counterpart(nfc: Nfc, e: Entry, others: seq<Entry>) {
    exists j | 0 <= j < |others| :: others[j].key == e.key && Canon(nfc, others[j].value) == Canon(nfc, e.value)
  }

  /** Values that differ only in the order of dictionary entries have one normal form, or are both rejected. */
  lemma {:induction false} KeyOrderIsIrrelevant(nfc: Nfc, a: Value, b: Value)
    requires Proper(a) && Proper(b) && Alike(a, b)
    ensures Canon(nfc, a) == Canon(nfc, b)
  {
    match a
    case List(items) =>
      forall i | 0 <= i < |items| ensures Canon(nfc, items[i]) == Canon(nfc, b.items[i]) {
        KeyOrderIsIrrelevant(nfc, items[i], b.items[i]);
      }
      hide Proper, Alike;
      ItemsAlike(nfc, items, b.items);
    case Dict(entries) =>
      forall j | 0 <= j < |b.entries| ensures Counterpart(nfc, b.entries[j], entries) {
        var i := AlikeEntry(entries, b.entries, j);
        assert Proper(entries[i].value) && Proper(b.entries[j].value);
        KeyOrderIsIrrelevant(nfc, entries[i].value, b.entries[j].value);
      }
      forall i | 0 <= i < |entries| ensures Counterpart(nfc, entries[i], b.entries) {
        assert HasAlike(entries[i], b.entries);
        var j :| 0 <= j < |b.entries| && b.entries[j].key == entries[i].key && Alike(entries[i].value, b.entries[j].value);
        assert Proper(entries[i].value) && Proper(b.entries[j].value);
        KeyOrderIsIrrelevant(nfc, entries[i].value, b.entries[j].value);
      }
      assert !OneKeyTwice(entries) && !OneKeyTwice(b.entries);
      hide Proper, Alike, Canon, OneKeyTwice, Counterpart;
      SameEntriesSameForm(nfc, entries, b.entries);
      SameEntriesSameForm(nfc, b.entries, entries);
    case _ =>
  }

  lemma ItemsAlike(nfc: Nfc, items: seq<Value>, others: seq<Value>)
    requires |items| == |others| && forall i | 0 <= i < |items| :: Canon(nfc, items[i]) == Canon(nfc, others[i])
    ensures Canon(nfc, List(items)) == Canon(nfc, List(others))
  {
    assert forall i | 0 <= i < |items| :: Supported(nfc, items[i]) <==> Canon(nfc, items[i]).Some?;
    assert forall i | 0 <= i < |items| :: Supported(nfc, others[i]) <==> Canon(nfc, others[i]).Some?;
    if Supported(nfc, List(items)) {
      forall i | 0 <= i < |items| ensures Form(nfc, items[i]) == Form(nfc, others[i]) {
        assert Canon(nfc, items[i]) == Canon(nfc, others[i]);
      }
      assert Form(nfc, List(items)).items == Form(nfc, List(others)).items;
    }
  }

  lemma CounterpartsDoNotClash(nfc: Nfc, entries: seq<Entry>, others: seq<Entry>)
    requires !OneKeyTwice(others) && !Clash(nfc, entries) && TextKeys(entries)
    requires forall j | 0 <= j < |others| :: Counterpart(nfc, others[j], entries)
    ensures TextKeys(others) && !Clash(nfc, others)
  {
    hide Canon;
    forall j | 0 <= j < |others| ensures others[j].key.Text? {
      assert Counterpart(nfc, others[j], entries);
    }
    forall j, k | 0 <= j < k < |others| ensures nfc(others[j].key.text) != nfc(others[k].key.text) {
      assert Counterpart(nfc, others[j], entries) && Counterpart(nfc, others[k], entries);
      var a :| 0 <= a < |entries| && entries[a].key == others[j].key;
      var b :| 0 <= b < |entries| && entries[b].key == others[k].key;
      assert a != b && others[j].key != others[k].key;
      assert if a < b then !(nfc(entries[a].key.text) == nfc(entries[b].key.text))
             else !(nfc(entries[b].key.text) == nfc(entries[a].key.text));
    }
  }

  lemma CounterpartMaps(nfc: Nfc, m: map<string, Json>, entries: seq<Entry>, e: Entry)
    requires Lists(nfc, m, entries) && Counterpart(nfc, e, entries)
    ensures Maps(nfc, m, e)
  {
    hide Canon, HasForm;
    var i :| 0 <= i < |entries| && entries[i].key == e.key && Canon(nfc, entries[i].value) == Canon(nfc, e.value);
    assert Maps(nfc, m, entries[i]);
  }

  lemma CounterpartForm(nfc: Nfc, entries: seq<Entry>, others: seq<Entry>, k: string)
    requires HasForm(nfc, entries, k) && forall i | 0 <= i < |entries| :: Counterpart(nfc, entries[i], others)
    ensures HasForm(nfc, others, k)
  {
    hide Canon;
    var i :| 0 <= i < |entries| && entries[i].key.Text? && nfc(entries[i].key.text) == k;
    assert Counterpart(nfc, entries[i], others);
  }

  lemma CounterpartsList(nfc: Nfc, m: map<string, Json>, entries: seq<Entry>, others: seq<Entry>)
    requires Lists(nfc, m, entries)
    requires forall i | 0 <= i < |entries| :: Counterpart(nfc, entries[i], others)
    requires forall j | 0 <= j < |others| :: Counterpart(nfc, others[j], entries)
    ensures Lists(nfc, m, others)
  {
    hide Maps, HasForm, Counterpart;
    forall j | 0 <= j < |others| ensures Maps(nfc, m, others[j]) {
      CounterpartMaps(nfc, m, entries, others[j]);
    }
    forall k | k in m ensures HasForm(nfc, others, k) {
      CounterpartForm(nfc, entries, others, k);
    }
  }

  lemma SameEntriesSameForm(nfc: Nfc, entries: seq<Entry>, others: seq<Entry>)
    requires !OneKeyTwice(others)
    requires forall i | 0 <= i < |entries| :: Counterpart(nfc, entries[i], others)
    requires forall j | 0 <= j < |others| :: Counterpart(nfc, others[j], entries)
    ensures Canon(nfc, Dict(entries)).Some? ==> Canon(nfc, Dict(others)) == Canon(nfc, Dict(entries))
  {
    if Canon(nfc, Dict(entries)).Some? {
      var m := Form(nfc, Dict(entries)).members;
      ListedForm(nfc, entries, m);
      hide Canon, Lists, Counterpart, Clash, OneKeyTwice;
      CounterpartsDoNotClash(nfc, entries, others);
      CounterpartsList(nfc, m, entries, others);
      ListedForm(nfc, others, m);
    }
  }

  // ----- Rejection for keys -----

  /** A value of supported kinds throughout; only its keys may still be at fault. */
  ghost predicate WellKinded(v: Value) {
    match v
    case Float(x) => x.Finite? && x.value == x.value.Floor as real
    case List(items) => forall i | 0 <= i < |items| :: WellKinded(items[i])
    case Dict(entries) => TextKeys(entries) && forall i | 0 <= i < |entries| :: WellKinded(entries[i].value)
    case Unsupported => false
    case _ => true
  }

  /** `o` occurs in `v`, at any depth. */
  ghost predicate Part(o: Value, v: Value)
    decreases v
  {
    || o == v
    || (v.List? && exists i | 0 <= i < |v.items| :: Part(o, v.items[i]))
    || (v.Dict? && exists i | 0 <= i < |v.entries| :: Part(o, v.entries[i].value))
  }

  /** A value of supported kinds is rejected exactly when some object in it has two keys with one NFC form. */
  lemma {:induction false} RejectedForKeysExactly(nfc: Nfc, v: Value)
    requires WellKinded(v)
    ensures Canon(nfc, v).None? <==> exists o :: Part(o, v) && o.Dict? && Clash(nfc, o.entries)
  {
    hide Clash;
    match v
    case List(items) =>
      forall i | 0 <= i < |items|
        ensures Canon(nfc, items[i]).None? <==> exists o :: Part(o, items[i]) && o.Dict? && Clash(nfc, o.entries)
      {
        RejectedForKeysExactly(nfc, items[i]);
      }
      if Canon(nfc, v).None? {
        var i :| 0 <= i < |items| && !Supported(nfc, items[i]);
        assert Canon(nfc, items[i]).None?;
        var o :| Part(o, items[i]) && o.Dict? && Clash(nfc, o.entries);
        assert Part(o, v);
      }
    case Dict(entries) =>
      forall i | 0 <= i < |entries|
        ensures Canon(nfc, entries[i].value).None? <==> exists o :: Part(o, entries[i].value) && o.Dict? && Clash(nfc, o.entries)
      {
        RejectedForKeysExactly(nfc, entries[i].value);
      }
      if Canon(nfc, v).None? {
        if Clash(nfc, entries) {
          assert Part(v, v);
        } else {
          var i :| 0 <= i < |entries| && !Supported(nfc, entries[i].value);
          assert Canon(nfc, entries[i].value).None?;
          var o :| Part(o, entries[i].value) && o.Dict? && Clash(nfc, o.entries);
          assert Part(o, v);
        }
      }
    case _ =>
  }
}
