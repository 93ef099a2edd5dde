/** What the two conversions do, in plain names and values. */
module JsonAnswers {
  import opened JsonLua

  /** Everything but an object, an array and null travels as it is. */
  lemma AtomsTravel(round: real -> real, b: bool, n: real, s: string, l: Lua, j: Json)
    ensures ToLua(round, Bool(b), l) <==> l == LBool(b)
    ensures ToLua(round, Str(s), l) <==> l == LStr(s)
    ensures ToLua(round, Number(n), l) <==> l == LNumber(round(n))
    ensures !ToLua(round, Null, l)
    ensures forall asArray :: (ToJson(LBool(b), asArray, j) <==> j == Bool(b))
                           && (ToJson(LStr(s), asArray, j) <==> j == Str(s))
                           && (ToJson(LNumber(n), asArray, j) <==> j == Number(n))
  {
  }

  /** An array of a field arrives under the field's name with "array_" before it, its
      items under 1, 2, and so on, with a hole where an item is null. */
  lemma ArrayTravels(round: real -> real, name: Name, items: seq<Json>, l: Lua)
    requires ToLua(round, Obj(map[name := Arr(items)]), l)
    ensures l.Table? && l.indexed == map[] && l.named.Keys == {"array_" + name}
    ensures var t := l.named["array_" + name];
            && t.Table? && t.named == map[]
            && (forall i :: i in t.indexed <==> 1 <= i <= |items| && items[i - 1] != Null)
            && (forall i :: 1 <= i <= |items| && items[i - 1] != Null ==> ToLua(round, items[i - 1], t.indexed[i]))
  {
    var fields := map[name := Arr(items)];
    assert LuaKey(name, fields[name]) in l.named;
  }

  /** An object of a field, and an atom, arrive under the field's own name. */
  lemma FieldTravels(round: real -> real, name: Name, value: Json, l: Lua)
    requires !value.Arr? && value != Null && ToLua(round, Obj(map[name := value]), l)
    ensures l.Table? && l.indexed == map[] && l.named.Keys == {name} && ToLua(round, value, l.named[name])
  {
    var fields := map[name := value];
    assert LuaKey(name, fields[name]) in l.named;
  }

  /** A table under a name that begins with "array_" becomes an array under the rest
      of the name, any other table an object under its own name. */
  lemma TableReturns(name: Name, t: Lua, j: Json)
    requires t.Table? && ToJson(Table(map[], map[name := t]), false, j)
    ensures j.Obj?
    ensures if "array_" <= name then j.fields.Keys == {name[6..]} && ToJson(t, true, j.fields[name[6..]])
            else j.fields.Keys == {name} && ToJson(t, false, j.fields[name])
  {
    hide ToJson;
    OneField(name, t, j);
    assert JsonKey(name, t) == if "array_" <= name then name[6..] else name;
  }

  lemma OneField(name: Name, t: Lua, j: Json)
    requires ToJson(Table(map[], map[name := t]), false, j)
    ensures j.Obj? && j.fields.Keys == {JsonKey(name, t)} && ToJson(t, AsArray(name, t), j.fields[JsonKey(name, t)])
  {
    hide AsArray, JsonKey;
    var named := map[name := t];
    assert JsonKey(name, named[name]) in j.fields;
  }

  /** In an array the entries under 1, 2, and so on come first and in order. */
  lemma RowReturns(row: seq<Lua>, l: Lua, j: Json, n: nat)
    requires l.Table? && (forall k :: 1 <= k <= |row| ==> k in l.indexed && l.indexed[k] == row[k - 1])
    requires ToJson(l, true, j) && 1 <= n <= |row|
    ensures j.Arr? && |row| <= |j.items| == |l.indexed| + |l.named| && ToJson(row[n - 1], false, j.items[n - 1])
  {
    hide ToJson;
    ArraySize(l, j);
    InOrder(l, j, |row|);
    InOrder(l, j, n);
  }

  /** The faithful condition, of an object of one field. */
  lemma FaithfulField(round: real -> real, name: Name, value: Json)
    ensures Faithful(round, Obj(map[name := value])) <==> Faithful(round, value) && !("array_" <= name && value.Obj?)
  {
    var fields := map[name := value];
    assert "array_" + name != name by { assert |"array_" + name| == 6 + |name|; }
    assert name in fields && fields[name] == value;
  }

  /** Numbers that a double holds: a half, and 2^53. */
  lemma SomeAreHeld()
    ensures HeldByDouble(0.5) && HeldByDouble(9007199254740992.0)
  {
    assert Pow2(1) == 2;
    assert IsScaled(0.5, 1, 1) && IsScaled(9007199254740992.0, 4503599627370496, 1);
  }
}
