/** JSON trees become Lua tables and Lua tables become JSON trees again. Arrays
    travel as tables under names that begin with "array_". */
module JsonLua {
  type Name = string

  /** Integers and reals are both numbers. Lua holds a number as a double; which one
      stands for a number that is none is the parameter `round` below. */
  datatype Json =
    | Null
    | Bool(b: bool)
    | Number(n: real)
    | Str(s: string)
    | Arr(items: seq<Json>)
    | Obj(fields: map<Name, Json>)

  /** A table has entries under integers and entries under names. */
  datatype Lua =
    | LBool(b: bool)
    | LNumber(n: real)
    | LStr(s: string)
    | Table(indexed: map<int, Lua>, named: map<Name, Lua>)

  const PREFIX := "array_"

  predicate Prefixed(key: Name) {
    PREFIX <= key
  }

  /** The name under which a field is stored in a table. */
  function LuaKey(key: Name, value: Json): Name {
    if value.Arr? then PREFIX + key else key
  }

  /** Whether a table under this name turns back into an array. */
  predicate AsArray(key: Name, value: Lua) {
    value.Table? && Prefixed(key)
  }

  function JsonKey(key: Name, value: Lua): Name {
    if AsArray(key, value) then key[|PREFIX|..] else key
  }

  // -------------------------------------------------------------------------
  // What the two conversions may produce. Fields are visited in no particular
  // order, and a later one overwrites an earlier one of the same name.

  ghost predicate ToLua(round: real -> real, j: Json, l: Lua)
    decreases j
  {
    match j
    case Null => false
    case Bool(b) => l == LBool(b)
    case Number(n) => l == LNumber(round(n))
    case Str(s) => l == LStr(s)
    case Arr(items) =>
      && l.Table? && l.named == map[]
      && (forall i :: i in l.indexed <==> 1 <= i <= |items| && items[i - 1] != Null)
      && (forall i :: i in l.indexed ==> 1 <= i <= |items| && ToLua(round, items[i - 1], l.indexed[i]))
    case Obj(fields) =>
      && l.Table? && l.indexed == map[]
      && (forall k :: k in fields && fields[k] != Null ==> LuaKey(k, fields[k]) in l.named)
      && (forall n :: n in l.named ==>
            exists k :: k in fields && fields[k] != Null && LuaKey(k, fields[k]) == n && ToLua(round, fields[k], l.named[n]))
  }

  /** Where an entry of a table is found. */
  datatype Key = Position(i: int) | Label(n: Name)

  predicate InRow(indexed: set<int>, n: nat) {
    forall i :: 1 <= i <= n ==> i in indexed
  }

  /** Every entry once, those under 1, 2, and so on first and in order. */
  ghost predicate Lists(order: seq<Key>, indexed: set<int>, named: set<Name>) {
    && (forall p, q :: 0 <= p < q < |order| ==> order[p] != order[q])
    && (forall k :: k in order <==> if k.Position? then k.i in indexed else k.n in named)
    && (forall n: nat :: n > 0 && InRow(indexed, n) ==> n <= |order| && order[n - 1] == Position(n))
  }

  ghost predicate ToJson(l: Lua, asArray: bool, j: Json)
    decreases l
  {
    match l
    case LBool(b) => j == Bool(b)
    case LNumber(n) => j == Number(n)
    case LStr(s) => j == Str(s)
    case Table(indexed, named) =>
      if asArray then
        && j.Arr? && |j.items| == |indexed| + |named|
        && exists order :: Lists(order, indexed.Keys, named.Keys) && |order| == |j.items|
             && forall p :: 0 <= p < |order| ==>
                  match order[p]
                  case Position(i) => ToJson(indexed[i], false, j.items[p])
                  case Label(n) => ToJson(named[n], AsArray(n, named[n]), j.items[p])
      else
        && j.Obj?
        && (forall n :: n in named ==> JsonKey(n, named[n]) in j.fields)
        && (forall k :: k in j.fields ==>
              || (exists n :: n in named && JsonKey(n, named[n]) == k && ToJson(named[n], AsArray(n, named[n]), j.fields[k]))
              || (k == "" && exists e :: e in indexed.Items && ToJson(e.1, false, j.fields[k])))
  }

  // -------------------------------------------------------------------------
  // Which trees come back

  /** Numbers that Lua can hold; no null; no array directly in an array; no object
      under a name that begins with "array_"; and no array beside something else
      whose name is the array's with "array_" before it. */
  predicate Faithful(round: real -> real, j: Json)
    decreases j
  {
    match j
    case Null => false
    case Number(n) => round(n) == n
    case Arr(items) => forall i :: 0 <= i < |items| ==> !items[i].Arr? && Faithful(round, items[i])
    case Obj(fields) =>
      forall k :: k in fields ==>
        && Faithful(round, fields[k])
        && !(Prefixed(k) && fields[k].Obj?)
        && (fields[k].Arr? && PREFIX + k in fields ==> fields[PREFIX + k].Arr?)
    case _ => true
  }

  lemma TablesMeet(round: real -> real, j: Json, l: Lua)
    requires ToLua(round, j, l)
    ensures l.Table? <==> j.Arr? || j.Obj?
  {
  }

  /** Entries that stand in a row from 1 on keep their places. */
  lemma InOrder(l: Lua, j: Json, n: nat)
    requires l.Table? && ToJson(l, true, j) && n > 0 && InRow(l.indexed.Keys, n)
    ensures j.Arr? && n in l.indexed && n <= |j.items| && ToJson(l.indexed[n], false, j.items[n - 1])
  {
    var order :| Lists(order, l.indexed.Keys, l.named.Keys) && |order| == |j.items|
      && forall p :: 0 <= p < |order| ==>
           match order[p]
           case Position(i) => ToJson(l.indexed[i], false, j.items[p])
           case Label(m) => ToJson(l.named[m], AsArray(m, l.named[m]), j.items[p]);
    assert order[n - 1] == Position(n);
  }

  lemma ArraySize(l: Lua, j: Json)
    requires l.Table? && ToJson(l, true, j)
    ensures j.Arr? && |j.items| == |l.indexed| + |l.named|
  {
  }

  lemma ResultIsNeverNull(l: Lua, asArray: bool, j: Json)
    requires ToJson(l, asArray, j)
    ensures j != Null && (j.Arr? <==> l.Table? && asArray) && (j.Obj? <==> l.Table? && !asArray)
  {
  }

  lemma Unprefix(k: Name)
    ensures Prefixed(PREFIX + k) && (PREFIX + k)[|PREFIX|..] == k
    ensures Prefixed(k) ==> PREFIX + k[|PREFIX|..] == k
  {
  }

  /** A name keeps its field, except an object's name that begins with "array_". */
  lemma KeyComesBack(round: real -> real, k: Name, j: Json, l: Lua)
    requires ToLua(round, j, l) && !(Prefixed(k) && j.Obj?)
    ensures var n := LuaKey(k, j); JsonKey(n, l) == k && (AsArray(n, l) <==> j.Arr?)
  {
    Unprefix(k);
  }

  /** Two fields meet under one name only as an array and another beside it. */
  lemma KeysMeet(k: Name, v: Json, k': Name, v': Json)
    requires LuaKey(k, v) == LuaKey(k', v') && k != k'
    ensures (v.Arr? && !v'.Arr? && k' == PREFIX + k) || (v'.Arr? && !v.Arr? && k == PREFIX + k')
  {
    Unprefix(k);
    Unprefix(k');
  }

  /** The integers from 1 to n. */
  function Range(n: nat): (s: set<int>)
    ensures forall i :: i in s <==> 1 <= i <= n
    ensures |s| == n
  {
    if n == 0 then {} else Range(n - 1) + {n}
  }

  lemma RangeSize(s: set<int>, n: nat)
    requires forall i :: i in s <==> 1 <= i <= n
    ensures |s| == n
  {
    assert s == Range(n);
  }

  lemma SubRange(s: set<int>, n: nat)
    requires (forall i :: i in s ==> 1 <= i <= n) && |s| == n
    ensures forall i :: 1 <= i <= n ==> i in s
  {
    var all := Range(n);
    assert all == s + (all - s);
    assert |all - s| == 0;
    assert forall i :: i in all ==> i !in all - s;
  }

  // Faithful trees come back as they were

  lemma {:induction false} FaithfulComesBack(round: real -> real, j: Json, l: Lua, r: Json)
    requires ToLua(round, j, l) && ToJson(l, j.Arr?, r) && Faithful(round, j)
    ensures r == j
    decreases j
  {
    match j
    case Arr(items) => FaithfulArrayComesBack(round, j, l, r);
    case Obj(fields) => FaithfulObjectComesBack(round, j, l, r);
    case _ =>
  }

  lemma {:induction false} FaithfulArrayComesBack(round: real -> real, j: Json, l: Lua, r: Json)
    requires ToLua(round, j, l) && ToJson(l, true, r) && Faithful(round, j) && j.Arr?
    ensures r == j
    decreases j, 0
  {
    hide ToJson;
    RangeSize(l.indexed.Keys, |j.items|);
    assert |l.indexed| == |l.indexed.Keys| == |j.items|;
    ArraySize(l, r);
    forall i | 0 <= i < |j.items|
      ensures r.items[i] == j.items[i]
    {
      InOrder(l, r, i + 1);
      FaithfulComesBack(round, j.items[i], l.indexed[i + 1], r.items[i]);
    }
  }

  lemma {:induction false} FaithfulObjectComesBack(round: real -> real, j: Json, l: Lua, r: Json)
    requires ToLua(round, j, l) && ToJson(l, false, r) && Faithful(round, j) && j.Obj?
    ensures r == j
    decreases j, 0
  {
    hide ToLua, ToJson;
    TablesMeet(round, j, l);
    ResultIsNeverNull(l, false, r);
    forall k | k in r.fields
      ensures k in j.fields && r.fields[k] == j.fields[k]
    {
      var n := FieldsSource(round, j, l, r, k);
      FaithfulComesBack(round, j.fields[k], l.named[n], r.fields[k]);
    }
    forall k | k in j.fields
      ensures k in r.fields
    {
      FieldSurvives(round, j, l, r, k);
    }
  }

  /** A field of the result comes from the field of that name. */
  lemma FieldsSource(round: real -> real, j: Json, l: Lua, r: Json, k: Name) returns (n: Name)
    requires ToLua(round, j, l) && ToJson(l, false, r) && Faithful(round, j) && j.Obj? && k in r.fields
    ensures k in j.fields && n == LuaKey(k, j.fields[k]) && n in l.named
    ensures ToLua(round, j.fields[k], l.named[n]) && ToJson(l.named[n], j.fields[k].Arr?, r.fields[k])
  {
    n :| n in l.named && JsonKey(n, l.named[n]) == k && ToJson(l.named[n], AsArray(n, l.named[n]), r.fields[k]);
    var k' :| k' in j.fields && LuaKey(k', j.fields[k']) == n && ToLua(round, j.fields[k'], l.named[n]);
    KeyComesBack(round, k', j.fields[k'], l.named[n]);
  }

  lemma FieldSurvives(round: real -> real, j: Json, l: Lua, r: Json, k: Name)
    requires ToLua(round, j, l) && ToJson(l, false, r) && Faithful(round, j) && j.Obj? && k in j.fields
    ensures r.Obj? && k in r.fields
  {
    assert Faithful(round, j.fields[k]);
    var n := LuaKey(k, j.fields[k]);
    var k' :| k' in j.fields && LuaKey(k', j.fields[k']) == n && ToLua(round, j.fields[k'], l.named[n]);
    assert k' == k by {
      if k' != k {
        KeysMeet(k, j.fields[k], k', j.fields[k']);
      }
    }
    KeyComesBack(round, k, j.fields[k], l.named[n]);
  }

  // Nothing else does

  lemma {:induction false} OnlyFaithfulComesBack(round: real -> real, j: Json, l: Lua)
    requires ToLua(round, j, l) && ToJson(l, j.Arr?, j)
    ensures Faithful(round, j)
    decreases j
  {
    match j
    case Arr(items) => OnlyFaithfulArrays(round, j, l);
    case Obj(fields) => OnlyFaithfulObjects(round, j, l);
    case _ =>
  }

  lemma {:induction false} OnlyFaithfulArrays(round: real -> real, j: Json, l: Lua)
    requires ToLua(round, j, l) && ToJson(l, true, j) && j.Arr?
    ensures Faithful(round, j)
    decreases j, 0
  {
    hide ToJson;
    assert |l.indexed| == |l.indexed.Keys|;
    ArraySize(l, j);
    SubRange(l.indexed.Keys, |j.items|);
    forall i | 0 <= i < |j.items|
      ensures !j.items[i].Arr? && Faithful(round, j.items[i])
    {
      InOrder(l, j, i + 1);
      ResultIsNeverNull(l.indexed[i + 1], false, j.items[i]);
      OnlyFaithfulComesBack(round, j.items[i], l.indexed[i + 1]);
    }
  }

  /** Where a field of the result came from: its own place in the table. */
  lemma FieldsOwnPlace(round: real -> real, j: Json, l: Lua, k: Name)
    requires ToLua(round, j, l) && ToJson(l, false, j) && j.Obj? && k in j.fields
    ensures j.fields[k] != Null && !(Prefixed(k) && j.fields[k].Obj?)
    ensures var n := LuaKey(k, j.fields[k]);
            n in l.named && ToJson(l.named[n], j.fields[k].Arr?, j.fields[k])
  {
    var n :| n in l.named && JsonKey(n, l.named[n]) == k && ToJson(l.named[n], AsArray(n, l.named[n]), j.fields[k]);
    ResultIsNeverNull(l.named[n], AsArray(n, l.named[n]), j.fields[k]);
    Unprefix(k);
    Unprefix(n);
  }

  lemma {:induction false} OnlyFaithfulObjects(round: real -> real, j: Json, l: Lua)
    requires ToLua(round, j, l) && ToJson(l, false, j) && j.Obj?
    ensures Faithful(round, j)
    decreases j, 0
  {
    forall k | k in j.fields
      ensures Faithful(round, j.fields[k]) && !(Prefixed(k) && j.fields[k].Obj?)
      ensures j.fields[k].Arr? && PREFIX + k in j.fields ==> j.fields[PREFIX + k].Arr?
    {
      FieldsOwnPlace(round, j, l, k);
      var n := LuaKey(k, j.fields[k]);
      ResultIsNeverNull(l.named[n], j.fields[k].Arr?, j.fields[k]);
      if j.fields[k].Arr? && PREFIX + k in j.fields {
        FieldsOwnPlace(round, j, l, PREFIX + k);
      }
      var k' :| k' in j.fields && LuaKey(k', j.fields[k']) == n && ToLua(round, j.fields[k'], l.named[n]);
      if k' != k {
        KeysMeet(k, j.fields[k], k', j.fields[k']);
        FieldsOwnPlace(round, j, l, k');
        ResultIsNeverNull(l.named[n], j.fields[k'].Arr?, j.fields[k']);
      }
      OnlyFaithfulComesBack(round, j.fields[k], l.named[n]);
    }
  }

  /** Exactly the faithful objects are the same after a visit to Lua, however
      numbers are rounded there. */
  lemma RoundTripExactly(round: real -> real, j: Json, l: Lua, r: Json)
    requires j.Obj? && ToLua(round, j, l) && ToJson(l, false, r)
    ensures r == j <==> Faithful(round, j)
  {
    if Faithful(round, j) {
      FaithfulComesBack(round, j, l, r);
    }
    if r == j {
      OnlyFaithfulComesBack(round, j, l);
    }
  }

  function Pow2(e: nat): (p: int)
    ensures p >= 1 && (e > 0 ==> p % 2 == 0)
  {
    if e == 0 then 1 else 2 * Pow2(e - 1)
  }

  const MANTISSA := 0x20_0000_0000_0000

  /** A number with 53 significant binary digits, of whatever exponent. */
  ghost predicate HeldByDouble(n: real) {
    exists m: int, e: nat :: -MANTISSA < m < MANTISSA && IsScaled(n, m, e)
  }

  predicate IsScaled(n: real, m: int, e: nat) {
    n == (m * Pow2(e)) as real || n * Pow2(e) as real == m as real
  }

  lemma EvenProduct(m: int, p: int)
    requires p % 2 == 0
    ensures (m * p) % 2 == 0
  {
    assert m * p == 2 * (m * (p / 2));
  }

  lemma AtLeast(x: real, p: real)
    requires x >= 0.0 && p >= 1.0
    ensures x * p >= x
  {
    assert x * p - x == x * (p - 1.0);
  }

  lemma NoDoubleHolds()
    ensures !HeldByDouble((MANTISSA + 1) as real)
  {
    var n := (MANTISSA + 1) as real;
    if HeldByDouble(n) {
      var m: int, e: nat :| -MANTISSA < m < MANTISSA && IsScaled(n, m, e);
      AtLeast(n, Pow2(e) as real);
      if e > 0 {
        EvenProduct(m, Pow2(e));
      }
      assert false;
    }
  }

  /** The first integer that no double holds does not come back. */
  lemma BigIntegerChanges(round: real -> real, l: Lua, r: Json)
    requires HeldByDouble(round((MANTISSA + 1) as real))
    requires var j := Obj(map["a" := Number((MANTISSA + 1) as real)]); ToLua(round, j, l) && ToJson(l, false, r)
    ensures r != Obj(map["a" := Number((MANTISSA + 1) as real)])
  {
    hide HeldByDouble, ToLua, ToJson;
    var j := Obj(map["a" := Number((MANTISSA + 1) as real)]);
    NoDoubleHolds();
    assert !Faithful(round, j.fields["a"]);
    RoundTripExactly(round, j, l, r);
  }

  // -------------------------------------------------------------------------
  // The conversions

  method J2lParseItem(round: real -> real, j: Json) returns (l: Lua)
    requires j != Null
    ensures ToLua(round, j, l)
    decreases j
  {
    match j
    case Bool(b) => l := LBool(b);
    case Number(n) => l := LNumber(round(n));
    case Str(s) => l := LStr(s);
    case Arr(items) => l := ParseArray(round, j);
    case Obj(fields) => l := ParseObject(round, j);
  }

  /** A null is skipped and leaves a hole. */
  method ParseArray(round: real -> real, j: Json) returns (l: Lua)
    requires j.Arr?
    ensures ToLua(round, j, l)
    decreases j, 0
  {
    var indexed: map<int, Lua> := map[];
    var i := 0;
    while i < |j.items|
      invariant 0 <= i <= |j.items|
      invariant forall k :: k in indexed <==> 1 <= k <= i && j.items[k - 1] != Null
      invariant forall k :: k in indexed ==> 1 <= k <= i && ToLua(round, j.items[k - 1], indexed[k])
    {
      if j.items[i] != Null {
        var item := J2lParseItem(round, j.items[i]);
        indexed := indexed[i + 1 := item];
      }
      i := i + 1;
    }
    l := Table(indexed, map[]);
  }

  method ParseObject(round: real -> real, j: Json) returns (l: Lua)
    requires j.Obj?
    ensures ToLua(round, j, l)
    decreases j, 0
  {
    var named: map<Name, Lua> := map[];
    var todo := j.fields.Keys;
    while todo != {}
      invariant todo <= j.fields.Keys
      invariant forall k :: k in j.fields && k !in todo && j.fields[k] != Null ==> LuaKey(k, j.fields[k]) in named
      invariant forall n :: n in named ==>
                  exists k :: k in j.fields && j.fields[k] != Null && LuaKey(k, j.fields[k]) == n && ToLua(round, j.fields[k], named[n])
      decreases todo
    {
      var k :| k in todo;
      if j.fields[k] != Null {
        var value := J2lParseItem(round, j.fields[k]);
        named := named[LuaKey(k, j.fields[k]) := value];
      }
      todo := todo - {k};
    }
    l := Table(map[], named);
  }

  /** Anything but an object gives an empty table. */
  method JsonToLua(round: real -> real, j: Json) returns (l: Lua)
    ensures if j.Obj? then ToLua(round, j, l) else l == Table(map[], map[])
  {
    if j.Obj? {
      l := ParseObject(round, j);
    } else {
      l := Table(map[], map[]);
    }
  }

  method L2jParseItem(key: Name, l: Lua) returns (name: Name, j: Json)
    ensures name == JsonKey(key, l) && ToJson(l, AsArray(key, l), j)
    decreases l, 2
  {
    name := JsonKey(key, l);
    match l
    case LBool(b) => j := Bool(b);
    case LNumber(n) => j := Number(n);
    case LStr(s) => j := Str(s);
    case Table(_, _) =>
      if AsArray(key, l) {
        j := TableToArray(l);
      } else {
        j := TableToObject(l);
      }
  }

  /** The items are what the entries named in `order` turn into. */
  ghost predicate Converted(l: Lua, order: seq<Key>, items: seq<Json>)
    requires l.Table?
  {
    && |order| == |items|
    && forall p :: 0 <= p < |order| ==>
         match order[p]
         case Position(i) => i in l.indexed && ToJson(l.indexed[i], false, items[p])
         case Label(n) => n in l.named && ToJson(l.named[n], AsArray(n, l.named[n]), items[p])
  }

  /** The entries under 1, 2, and so on; `rest` is what is left. */
  method TakeInOrder(l: Lua) returns (items: seq<Json>, rest: set<(int, Lua)>, ghost order: seq<Key>)
    requires l.Table?
    ensures rest <= l.indexed.Items && |items| + |rest| == |l.indexed|
    ensures Converted(l, order, items) && |items| + 1 !in l.indexed
    ensures forall p :: 0 <= p < |order| ==> order[p] == Position(p + 1)
    ensures forall i :: i in l.indexed && (i, l.indexed[i]) !in rest <==> 1 <= i <= |items|
    decreases l, 0
  {
    items, rest, order := [], l.indexed.Items, [];
    while |items| + 1 in l.indexed
      invariant rest <= l.indexed.Items && |items| + |rest| == |l.indexed|
      invariant forall i :: i in l.indexed && (i, l.indexed[i]) !in rest <==> 1 <= i <= |items|
      invariant Converted(l, order, items) && forall p :: 0 <= p < |order| ==> order[p] == Position(p + 1)
      decreases rest
    {
      var next := l.indexed[|items| + 1];
      assert (|items| + 1, next) in rest;
      var _, item := L2jParseItem("", next);
      rest := rest - {(|items| + 1, next)};
      order := order + [Position(|items| + 1)];
      items := items + [item];
    }
  }

  /** All other entries of an array, each once, in any order. */
  method TakeOthers(l: Lua, rest: set<(int, Lua)>) returns (items: seq<Json>, ghost order: seq<Key>)
    requires l.Table? && rest <= l.indexed.Items
    ensures |items| == |rest| + |l.named| && Converted(l, order, items)
    ensures forall p, q :: 0 <= p < q < |order| ==> order[p] != order[q]
    ensures forall k :: k in order <==> if k.Position? then k.i in l.indexed && (k.i, l.indexed[k.i]) in rest else k.n in l.named
    decreases l, 0
  {
    items, order := [], [];
    var left := rest;
    while left != {}
      invariant left <= rest && |items| + |left| == |rest| && Converted(l, order, items)
      invariant forall p, q :: 0 <= p < q < |order| ==> order[p] != order[q]
      invariant forall k :: k in order <==> k.Position? && k.i in l.indexed && (k.i, l.indexed[k.i]) in rest - left
      decreases left
    {
      var entry :| entry in left;
      var _, item := L2jParseItem("", entry.1);
      left := left - {entry};
      order := order + [Position(entry.0)];
      items := items + [item];
    }
    var names := l.named.Keys;
    while names != {}
      invariant names <= l.named.Keys && |items| + |names| == |rest| + |l.named| && Converted(l, order, items)
      invariant forall p, q :: 0 <= p < q < |order| ==> order[p] != order[q]
      invariant forall k :: k in order <==>
                  if k.Position? then k.i in l.indexed && (k.i, l.indexed[k.i]) in rest else k.n in l.named && k.n !in names
      decreases names
    {
      var n :| n in names;
      var _, item := L2jParseItem(n, l.named[n]);
      names := names - {n};
      order := order + [Label(n)];
      items := items + [item];
    }
  }

  /** The entries under 1, 2, and so on come first and in order, then the others. */
  method TableToArray(l: Lua) returns (j: Json)
    requires l.Table?
    ensures ToJson(l, true, j)
    decreases l, 1
  {
    hide ToJson, Lists, Converted;
    var ordered, rest, first := TakeInOrder(l);
    var others, second := TakeOthers(l, rest);
    j := Arr(ordered + others);
    SameLength(l, first, ordered);
    ListsAll(l, first, rest, second, |ordered|);
    ConvertedBoth(l, first, ordered, second, others);
    ConvertedIsJson(l, first + second, j);
  }

  lemma SameLength(l: Lua, order: seq<Key>, items: seq<Json>)
    requires l.Table? && Converted(l, order, items)
    ensures |order| == |items|
  {
  }

  lemma ConvertedBoth(l: Lua, first: seq<Key>, ordered: seq<Json>, second: seq<Key>, others: seq<Json>)
    requires l.Table? && Converted(l, first, ordered) && Converted(l, second, others)
    ensures Converted(l, first + second, ordered + others)
  {
    hide ToJson;
  }

  lemma ConvertedIsJson(l: Lua, order: seq<Key>, j: Json)
    requires l.Table? && j.Arr? && |j.items| == |l.indexed| + |l.named|
    requires Lists(order, l.indexed.Keys, l.named.Keys) && Converted(l, order, j.items)
    ensures ToJson(l, true, j)
  {
  }

  lemma RowEnds(indexed: set<int>, n: nat, m: nat)
    requires n + 1 !in indexed && InRow(indexed, m)
    ensures m <= n
  {
  }

  lemma ListsAll(l: Lua, first: seq<Key>, rest: set<(int, Lua)>, second: seq<Key>, n: nat)
    requires l.Table? && |first| == n && n + 1 !in l.indexed
    requires forall p :: 0 <= p < |first| ==> first[p] == Position(p + 1)
    requires forall i :: i in l.indexed && (i, l.indexed[i]) !in rest <==> 1 <= i <= n
    requires forall p, q :: 0 <= p < q < |second| ==> second[p] != second[q]
    requires forall k :: k in second <==> if k.Position? then k.i in l.indexed && (k.i, l.indexed[k.i]) in rest else k.n in l.named
    ensures Lists(first + second, l.indexed.Keys, l.named.Keys)
  {
    var order := first + second;
    forall k
      ensures k in order <==> if k.Position? then k.i in l.indexed.Keys else k.n in l.named.Keys
    {
      if k.Position? && 1 <= k.i <= n {
        assert first[k.i - 1] == k;
      }
      assert k in order <==> k in first || k in second;
    }
    forall p, q | 0 <= p < q < |order|
      ensures order[p] != order[q]
    {
      if p < n <= q {
        assert order[q] in second;
      }
    }
    forall m: nat | m > 0 && InRow(l.indexed.Keys, m)
      ensures m <= |order| && order[m - 1] == Position(m)
    {
      RowEnds(l.indexed.Keys, n, m);
    }
  }

  /** Entries under integers all land under the empty name. */
  method TableToObject(l: Lua) returns (j: Json)
    requires l.Table?
    ensures ToJson(l, false, j)
    decreases l, 0
  {
    var fields: map<Name, Json> := map[];
    var todo := l.indexed.Items;
    while todo != {}
      invariant todo <= l.indexed.Items
      invariant forall k :: k in fields ==> k == "" && exists e :: e in l.indexed.Items && ToJson(e.1, false, fields[k])
      decreases todo
    {
      var entry :| entry in todo;
      var _, item := L2jParseItem("", entry.1);
      fields := fields["" := item];
      todo := todo - {entry};
    }
    var names := l.named.Keys;
    while names != {}
      invariant names <= l.named.Keys
      invariant forall n :: n in l.named && n !in names ==> JsonKey(n, l.named[n]) in fields
      invariant forall k :: k in fields ==>
        || (exists n :: n in l.named && JsonKey(n, l.named[n]) == k && ToJson(l.named[n], AsArray(n, l.named[n]), fields[k]))
        || (k == "" && exists e :: e in l.indexed.Items && ToJson(e.1, false, fields[k]))
      decreases names
    {
      var n :| n in names;
      var name, item := L2jParseItem(n, l.named[n]);
      fields := fields[name := item];
      names := names - {n};
    }
    j := Obj(fields);
  }

  /** Anything but a table gives an empty object. */
  method LuaToJson(l: Lua) returns (j: Json)
    ensures if l.Table? then ToJson(l, false, j) else j == Obj(map[])
  {
    if l.Table? {
      j := TableToObject(l);
    } else {
      j := Obj(map[]);
    }
  }

  /** The message of a command, handed to a script and sent on by it. */
  method ThereAndBack(round: real -> real, j: Json) returns (r: Json)
    ensures j.Obj? ==> (r == j <==> Faithful(round, j))
    ensures !j.Obj? ==> r == Obj(map[])
  {
    var l := JsonToLua(round, j);
    r := LuaToJson(l);
    if j.Obj? {
      RoundTripExactly(round, j, l, r);
    } else {
      assert r.fields == map[];
    }
  }
}
