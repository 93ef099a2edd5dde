/** Channels written to disk as JSON and read back. */
module PersistenceSpec {
  import opened Options
  import opened RegistrySpec

  datatype Node =
    | JString(s: string)
    | JInteger(i: int)
    | JArray(items: seq<Node>)
    | JObject(fields: map<string, Node>)
    | JOther

  datatype Mode = Both | AdsOnly | ChatOnly

  datatype ModRecord = ModRecord(modder: Name, time: int)

  /** What a channel keeps on disk. */
  datatype Rec = Rec(
    name: Name,
    description: string,
    mode: Mode,
    owner: Name,
    title: string,
    top: int,
    kind: RoomKind,
    bans: map<Name, BanRecord>,
    mods: map<Name, ModRecord>)

  /** A channel as it is before anything is read into it. */
  function NewRec(name: Name, kind: RoomKind, description: string): Rec {
    Rec(name, description, Both, "", "", 0, kind, map[], map[])
  }

  function ModeToString(mode: Mode): string {
    match mode
    case Both => "both"
    case AdsOnly => "ads"
    case ChatOnly => "chat"
  }

  function StringToMode(s: string): Mode {
    if s == "both" then Both else if s == "ads" then AdsOnly else if s == "chat" then ChatOnly else Both
  }

  function KindToString(kind: RoomKind): string {
    match kind
    case Private => "private"
    case PubPrivate => "pubprivate"
    case Public => "public"
  }

  function StringToKind(s: string): RoomKind {
    if s == "public" then Public else if s == "pubprivate" then PubPrivate else Private
  }

  lemma NamesComeBack(mode: Mode, kind: RoomKind)
    ensures StringToMode(ModeToString(mode)) == mode && StringToKind(KindToString(kind)) == kind
  {
  }

  // -------------------------------------------------------------------------
  // Reading: what is missing or of the wrong kind leaves the channel as it was

  function Get(node: Node, key: string): Option<Node> {
    if node.JObject? && key in node.fields then Some(node.fields[key]) else None
  }

  function StringOr(node: Option<Node>, default: string): string {
    if node.Some? && node.value.JString? then node.value.s else default
  }

  function IntegerOf(node: Node): int {
    if node.JInteger? then node.i else 0
  }

  function ItemsOf(node: Option<Node>): seq<Node> {
    if node.Some? && node.value.JArray? then node.value.items else []
  }

  function LoadBan(bans: map<Name, BanRecord>, node: Node): map<Name, BanRecord> {
    var banner, time, timeout, name := Get(node, "banner"), Get(node, "time"), Get(node, "timeout"), Get(node, "name");
    if banner == None || time == None || name == None || !name.value.JString? then bans
    else bans[Lower(name.value.s) :=
                BanRecord(StringOr(banner, ""), IntegerOf(time.value), if timeout.Some? then IntegerOf(timeout.value) else 0)]
  }

  function LoadBans(bans: map<Name, BanRecord>, items: seq<Node>): map<Name, BanRecord>
    decreases |items|
  {
    if items == [] then bans else LoadBan(LoadBans(bans, items[..|items| - 1]), items[|items| - 1])
  }

  function LoadMod(mods: map<Name, ModRecord>, node: Node): map<Name, ModRecord> {
    var modder, time, name := Get(node, "modder"), Get(node, "time"), Get(node, "name");
    if modder == None || time == None || name == None || !name.value.JString? then mods
    else mods[name.value.s := ModRecord(StringOr(modder, ""), IntegerOf(time.value))]
  }

  function LoadMods(mods: map<Name, ModRecord>, items: seq<Node>): map<Name, ModRecord>
    decreases |items|
  {
    if items == [] then mods else LoadMod(LoadMods(mods, items[..|items| - 1]), items[|items| - 1])
  }

  /** Only the first three hundred bans are read. */
  function Capped(items: seq<Node>): seq<Node> {
    if |items| > MAX_CHANNEL_BANS then items[..MAX_CHANNEL_BANS] else items
  }

  function Load(rec: Rec, node: Node): Rec {
    var mode, top, kind := Get(node, "mode"), Get(node, "top"), Get(node, "type");
    rec.(description := StringOr(Get(node, "description"), rec.description),
         mode := if mode.Some? && mode.value.JString? then StringToMode(mode.value.s) else rec.mode,
         owner := StringOr(Get(node, "owner"), rec.owner),
         title := StringOr(Get(node, "title"), rec.title),
         top := if top.Some? then IntegerOf(top.value) else rec.top,
         kind := if kind.Some? && kind.value.JString? then StringToKind(kind.value.s) else rec.kind,
         bans := LoadBans(rec.bans, Capped(ItemsOf(Get(node, "banlist")))),
         mods := LoadMods(rec.mods, ItemsOf(Get(node, "modlist"))))
  }

  // -------------------------------------------------------------------------
  // Writing: lists come in any order, each entry once

  function BanNode(name: Name, ban: BanRecord): Node {
    JObject(map["name" := JString(name), "banner" := JString(ban.banner),
                "timeout" := JInteger(ban.timeout), "time" := JInteger(ban.time)])
  }

  function ModNode(name: Name, mod: ModRecord): Node {
    JObject(map["name" := JString(name), "modder" := JString(mod.modder), "time" := JInteger(mod.time)])
  }

  predicate Unexpired(ban: BanRecord, now: int) {
    !(ban.timeout != 0 && ban.timeout < now)
  }

  function Kept(bans: map<Name, BanRecord>, now: int): map<Name, BanRecord> {
    map n | n in bans && Unexpired(bans[n], now) :: bans[n]
  }

  /** An order in which every name of a set comes once. */
  predicate Lists(order: seq<Name>, names: set<Name>) {
    && (forall n :: n in order ==> n in names) && (forall n :: n in names ==> n in order)
    && (forall i, j :: 0 <= i < j < |order| ==> order[i] != order[j])
  }

  function BanNodes(order: seq<Name>, bans: map<Name, BanRecord>): (items: seq<Node>)
    requires forall n :: n in order ==> n in bans
    ensures |items| == |order|
  {
    if order == [] then []
    else
      var n := order[|order| - 1];
      BanNodes(order[..|order| - 1], bans) + [BanNode(n, bans[n])]
  }

  function ModNodes(order: seq<Name>, mods: map<Name, ModRecord>): (items: seq<Node>)
    requires forall n :: n in order ==> n in mods
    ensures |items| == |order|
  {
    if order == [] then []
    else
      var n := order[|order| - 1];
      ModNodes(order[..|order| - 1], mods) + [ModNode(n, mods[n])]
  }

  /** What a channel looks like on disk, for some order of its lists. */
  function Save(rec: Rec, now: int, users: int, banOrder: seq<Name>, modOrder: seq<Name>): Node
    requires Lists(banOrder, Kept(rec.bans, now).Keys) && Lists(modOrder, rec.mods.Keys)
  {
    JObject(map[
      "name" := JString(rec.name), "description" := JString(rec.description),
      "mode" := JString(ModeToString(rec.mode)), "owner" := JString(rec.owner), "users" := JInteger(users),
      "title" := JString(rec.title), "top" := JInteger(rec.top), "type" := JString(KindToString(rec.kind)),
      "banlist" := JArray(BanNodes(banOrder, Kept(rec.bans, now))),
      "modlist" := JArray(ModNodes(modOrder, rec.mods))])
  }

  // -------------------------------------------------------------------------
  // What comes back

  /** At most three hundred bans are in force and each is under a lower-case name. */
  predicate Storable(rec: Rec, now: int) {
    var kept := Kept(rec.bans, now);
    |kept| <= MAX_CHANNEL_BANS && forall n :: n in kept ==> Lower(n) == n
  }

  function Pruned(rec: Rec, now: int): Rec {
    rec.(bans := Kept(rec.bans, now))
  }

  /** The entries of a list of names. */
  function Listed<V>(order: seq<Name>, m: map<Name, V>): map<Name, V>
    requires forall n :: n in order ==> n in m
  {
    map n | n in order :: m[n]
  }

  lemma {:induction false} ListLength(order: seq<Name>, names: set<Name>)
    requires Lists(order, names)
    ensures |order| == |names|
    decreases order
  {
    if order == [] {
      assert forall n :: n !in names;
      assert names == {};
    } else {
      var front, last := order[..|order| - 1], order[|order| - 1];
      assert forall n :: n in order <==> n in front || n == last;
      ListLength(front, names - {last});
    }
  }

  lemma LastOf(order: seq<Name>)
    requires order != []
    ensures forall n :: n in order <==> n in order[..|order| - 1] || n == order[|order| - 1]
  {
  }

  lemma BanIsRead(bans: map<Name, BanRecord>, name: Name, ban: BanRecord)
    requires Lower(name) == name
    ensures LoadBan(bans, BanNode(name, ban)) == bans[name := ban]
  {
  }

  lemma ModIsRead(mods: map<Name, ModRecord>, name: Name, mod: ModRecord)
    ensures LoadMod(mods, ModNode(name, mod)) == mods[name := mod]
  {
  }

  lemma {:induction false} BansComeBack(order: seq<Name>, bans: map<Name, BanRecord>)
    requires forall n :: n in order ==> n in bans && Lower(n) == n
    ensures LoadBans(map[], BanNodes(order, bans)) == Listed(order, bans)
    decreases order
  {
    hide Lower, LoadBan, BanNode;
    if order != [] {
      var front, last := order[..|order| - 1], order[|order| - 1];
      LastOf(order);
      BansComeBack(front, bans);
      var items := BanNodes(order, bans);
      assert items[..|items| - 1] == BanNodes(front, bans);
      BanIsRead(Listed(front, bans), last, bans[last]);
    }
  }

  lemma {:induction false} ModsComeBack(order: seq<Name>, mods: map<Name, ModRecord>)
    requires forall n :: n in order ==> n in mods
    ensures LoadMods(map[], ModNodes(order, mods)) == Listed(order, mods)
    decreases order
  {
    hide LoadMod, ModNode;
    if order != [] {
      var front, last := order[..|order| - 1], order[|order| - 1];
      LastOf(order);
      ModsComeBack(front, mods);
      var items := ModNodes(order, mods);
      assert items[..|items| - 1] == ModNodes(front, mods);
      ModIsRead(Listed(front, mods), last, mods[last]);
    }
  }

  lemma LowerTwice(name: Name)
    ensures Lower(Lower(name)) == Lower(name)
  {
  }

  /** Whatever is read, the names are lower-case and no more than the items. */
  lemma {:induction false} LoadedBans(items: seq<Node>)
    ensures forall n :: n in LoadBans(map[], items) ==> Lower(n) == n
    ensures |LoadBans(map[], items)| <= |items|
    decreases |items|
  {
    if items != [] {
      var front, last := items[..|items| - 1], items[|items| - 1];
      LoadedBans(front);
      var before := LoadBans(map[], front);
      var name := Get(last, "name");
      if name.Some? && name.value.JString? {
        var lower := Lower(name.value.s);
        LowerTwice(name.value.s);
        var after := LoadBan(before, last);
        assert after.Keys <= before.Keys + {lower};
        SubsetSize(after.Keys, before.Keys + {lower});
        assert |after| == |after.Keys| && |before| == |before.Keys|;
      }
    }
  }

  lemma CappedSize(items: seq<Node>)
    ensures |Capped(items)| <= MAX_CHANNEL_BANS
    ensures |items| <= MAX_CHANNEL_BANS ==> Capped(items) == items
  {
  }

  lemma StoredBansComeBack(rec: Rec, now: int, order: seq<Name>)
    requires Lists(order, Kept(rec.bans, now).Keys)
    ensures LoadBans(map[], Capped(BanNodes(order, Kept(rec.bans, now)))) == Kept(rec.bans, now) <==> Storable(rec, now)
  {
    hide Lower, Unexpired;
    var kept := Kept(rec.bans, now);
    var items := BanNodes(order, kept);
    ListLength(order, kept.Keys);
    assert |kept.Keys| == |kept|;
    CappedSize(items);
    LoadedBans(Capped(items));
    if Storable(rec, now) {
      BansComeBack(order, kept);
      assert Listed(order, kept) == kept;
    }
  }

  lemma SavedFields(rec: Rec, now: int, users: int, banOrder: seq<Name>, modOrder: seq<Name>)
    requires Lists(banOrder, Kept(rec.bans, now).Keys) && Lists(modOrder, rec.mods.Keys)
    ensures var node := Save(rec, now, users, banOrder, modOrder);
            && Get(node, "name") == Some(JString(rec.name))
            && Get(node, "description") == Some(JString(rec.description))
            && Get(node, "mode") == Some(JString(ModeToString(rec.mode)))
            && Get(node, "owner") == Some(JString(rec.owner))
            && Get(node, "title") == Some(JString(rec.title))
            && Get(node, "top") == Some(JInteger(rec.top))
            && Get(node, "type") == Some(JString(KindToString(rec.kind)))
            && Get(node, "banlist") == Some(JArray(BanNodes(banOrder, Kept(rec.bans, now))))
            && Get(node, "modlist") == Some(JArray(ModNodes(modOrder, rec.mods)))
  {
    hide Lists, BanNodes, ModNodes, Kept, ModeToString, KindToString;
  }

  /** Reading a saved channel into a new one gives the channel back, without its
      expired timeouts, exactly when its bans can be stored. */
  lemma LoadAfterSave(rec: Rec, now: int, users: int, banOrder: seq<Name>, modOrder: seq<Name>, kind: RoomKind)
    requires Lists(banOrder, Kept(rec.bans, now).Keys) && Lists(modOrder, rec.mods.Keys)
    ensures Load(NewRec(rec.name, kind, ""), Save(rec, now, users, banOrder, modOrder)) == Pruned(rec, now)
            <==> Storable(rec, now)
  {
    hide Lists, BanNodes, ModNodes, LoadBans, LoadMods, Kept, Storable, Capped, Save, Get;
    hide ModeToString, StringToMode, KindToString, StringToKind;
    StoredBansComeBack(rec, now, banOrder);
    AllModsComeBack(rec, modOrder);
    NamesComeBack(rec.mode, rec.kind);
    SavedFields(rec, now, users, banOrder, modOrder);
  }

  lemma AllModsComeBack(rec: Rec, order: seq<Name>)
    requires Lists(order, rec.mods.Keys)
    ensures LoadMods(map[], ModNodes(order, rec.mods)) == rec.mods
  {
    ModsComeBack(order, rec.mods);
    assert Listed(order, rec.mods) == rec.mods;
  }

  // -------------------------------------------------------------------------
  // The file: public channels and open private ones

  /** One channel's place in a file: the channel, how many users, and the orders. */
  datatype Entry = Entry(key: Name, users: int, banOrder: seq<Name>, modOrder: seq<Name>)

  /** The item is what this entry's channel looks like on disk. */
  predicate Written(channels: map<Name, Rec>, now: int, kind: RoomKind, e: Entry, item: Node) {
    && e.key in channels && channels[e.key].kind == kind
    && Lists(e.banOrder, Kept(channels[e.key].bans, now).Keys) && Lists(e.modOrder, channels[e.key].mods.Keys)
    && item == Save(channels[e.key], now, e.users, e.banOrder, e.modOrder)
  }

  predicate AllWritten(channels: map<Name, Rec>, now: int, kind: RoomKind, entries: seq<Entry>, items: seq<Node>) {
    && |items| == |entries|
    && forall i :: 0 <= i < |entries| ==> Written(channels, now, kind, entries[i], items[i])
  }

  ghost predicate Has(entries: seq<Entry>, r: Name) {
    exists i :: 0 <= i < |entries| && entries[i].key == r
  }

  /** Exactly the channels of a kind are written. */
  ghost predicate Entered(channels: map<Name, Rec>, now: int, kind: RoomKind, entries: seq<Entry>, items: seq<Node>) {
    && AllWritten(channels, now, kind, entries, items)
    && (forall r :: r in channels && channels[r].kind == kind ==> Has(entries, r))
  }

  /** One channel of the file: anything stored under its exact name goes first. */
  function LoadOne(channels: map<Name, Rec>, node: Node, kind: RoomKind): map<Name, Rec> {
    var name := StringOr(Get(node, "name"), "");
    (channels - {name})[Lower(name) := Load(NewRec(name, kind, ""), node)]
  }

  function LoadList(channels: map<Name, Rec>, items: seq<Node>, kind: RoomKind): map<Name, Rec>
    decreases |items|
  {
    if items == [] then channels else LoadOne(LoadList(channels, items[..|items| - 1], kind), items[|items| - 1], kind)
  }

  function IsArray(node: Option<Node>): bool {
    node.Some? && node.value.JArray?
  }

  /** A file without a list of public channels is ignored; without the other list,
      only the public channels are read. */
  function LoadFile(channels: map<Name, Rec>, root: Option<Node>): map<Name, Rec> {
    if root == None then channels
    else
      var open, closed := Get(root.value, "public"), Get(root.value, "private");
      if !IsArray(open) then channels
      else
        var read := LoadList(channels, open.value.items, Public);
        if !IsArray(closed) then read else LoadList(read, closed.value.items, PubPrivate)
  }

  function File(publics: seq<Node>, privates: seq<Node>): Node {
    JObject(map["public" := JArray(publics), "private" := JArray(privates)])
  }

  /** The channels of one kind, as they come back. */
  function OfKind(channels: map<Name, Rec>, now: int, kind: RoomKind): map<Name, Rec> {
    map r | r in channels && channels[r].kind == kind :: Pruned(channels[r], now)
  }

  predicate AllStorable(channels: map<Name, Rec>, now: int, kind: RoomKind) {
    forall r :: r in channels && channels[r].kind == kind ==> Storable(channels[r], now)
  }

  /** Every channel is stored under its lower-case name. */
  predicate WellNamed(channels: map<Name, Rec>) {
    forall r :: r in channels ==> Lower(channels[r].name) == r
  }

  predicate LowerKeys(channels: map<Name, Rec>) {
    forall r :: r in channels ==> Lower(r) == r
  }

  /** Reading one written channel stores it under its key and disturbs no other. */
  lemma OneRead(base: map<Name, Rec>, channels: map<Name, Rec>, now: int, kind: RoomKind, e: Entry, item: Node)
    requires WellNamed(channels) && LowerKeys(base) && Written(channels, now, kind, e, item)
    ensures LoadOne(base, item, kind) == base[e.key := Load(NewRec(channels[e.key].name, kind, ""), item)]
    ensures LowerKeys(LoadOne(base, item, kind))
  {
    hide Save, Load, Lists, Kept, Lower;
    var rec := channels[e.key];
    SavedFields(rec, now, e.users, e.banOrder, e.modOrder);
    LowerTwice(rec.name);
    assert rec.name in base ==> rec.name == e.key;
  }

  /** What is read under a name is what some entry of that name says. */
  ghost predicate ReadFrom(channels: map<Name, Rec>, kind: RoomKind, entries: seq<Entry>, items: seq<Node>, r: Name, rec: Rec)
    requires |items| == |entries|
  {
    r in channels && exists i :: 0 <= i < |entries| && entries[i].key == r
                               && rec == Load(NewRec(channels[r].name, kind, ""), items[i])
  }

  lemma {:induction false} ListRead(base: map<Name, Rec>, channels: map<Name, Rec>, now: int, kind: RoomKind,
                                    entries: seq<Entry>, items: seq<Node>, r: Name)
    requires WellNamed(channels) && LowerKeys(base) && AllWritten(channels, now, kind, entries, items)
    ensures var m := LoadList(base, items, kind);
            && LowerKeys(m)
            && if Has(entries, r) then r in m && ReadFrom(channels, kind, entries, items, r, m[r])
               else (r in m <==> r in base) && (r in m ==> m[r] == base[r])
    decreases |items|
  {
    hide WellNamed, LowerKeys, Load, Written, LoadOne;
    if items != [] {
      var n := |items| - 1;
      ListRead(base, channels, now, kind, entries[..n], items[..n], r);
      var before := LoadList(base, items[..n], kind);
      OneRead(before, channels, now, kind, entries[n], items[n]);
      WrittenKey(channels, now, kind, entries[n], items[n]);
      if Has(entries[..n], r) && entries[n].key != r {
        var i :| 0 <= i < n && entries[..n][i].key == r && before[r] == Load(NewRec(channels[r].name, kind, ""), items[..n][i]);
        assert entries[i].key == r && items[i] == items[..n][i];
      }
      if Has(entries, r) && entries[n].key != r {
        var i :| 0 <= i < |entries| && entries[i].key == r;
        assert entries[..n][i].key == r;
      }
    }
  }

  lemma WrittenKey(channels: map<Name, Rec>, now: int, kind: RoomKind, e: Entry, item: Node)
    requires Written(channels, now, kind, e, item)
    ensures e.key in channels && channels[e.key].kind == kind
  {
  }

  /** A channel read from an entry is the channel exactly when it can be stored. */
  lemma EntryComesBack(channels: map<Name, Rec>, now: int, kind: RoomKind,
                       entries: seq<Entry>, items: seq<Node>, r: Name, rec: Rec)
    requires AllWritten(channels, now, kind, entries, items) && ReadFrom(channels, kind, entries, items, r, rec)
    ensures channels[r].kind == kind
    ensures rec == Pruned(channels[r], now) <==> Storable(channels[r], now)
  {
    hide Load, Save, Lists, Kept, Storable, Pruned;
    var i :| 0 <= i < |entries| && entries[i].key == r && rec == Load(NewRec(channels[r].name, kind, ""), items[i]);
    assert Written(channels, now, kind, entries[i], items[i]);
    var e := entries[i];
    LoadAfterSave(channels[r], now, e.users, e.banOrder, e.modOrder, kind);
  }

  /** One list restores exactly the channels of its kind and leaves the others. */
  lemma KindComesBack(base: map<Name, Rec>, channels: map<Name, Rec>, now: int, kind: RoomKind,
                      entries: seq<Entry>, items: seq<Node>)
    requires WellNamed(channels) && LowerKeys(base) && Entered(channels, now, kind, entries, items)
    requires forall r :: r in base ==> r in channels && channels[r].kind != kind
    ensures var m := LoadList(base, items, kind);
            && LowerKeys(m)
            && (forall r :: r in m <==> r in base || (r in channels && channels[r].kind == kind))
            && (forall r :: r in base ==> m[r] == base[r])
            && (forall r :: r in channels && channels[r].kind == kind ==>
                  (m[r] == Pruned(channels[r], now) <==> Storable(channels[r], now)))
  {
    hide WellNamed, LowerKeys, AllWritten, ReadFrom, LoadList, Pruned, Storable;
    var m := LoadList(base, items, kind);
    EntriesAreOfKind(channels, now, kind, entries, items);
    forall r
      ensures LowerKeys(m)
      ensures r in m <==> r in base || (r in channels && channels[r].kind == kind)
      ensures r in base ==> m[r] == base[r]
      ensures r in channels && channels[r].kind == kind ==> (m[r] == Pruned(channels[r], now) <==> Storable(channels[r], now))
    {
      ListRead(base, channels, now, kind, entries, items, r);
      if Has(entries, r) {
        EntryComesBack(channels, now, kind, entries, items, r, m[r]);
      }
    }
    ListRead(base, channels, now, kind, entries, items, "");
  }

  lemma EntriesAreOfKind(channels: map<Name, Rec>, now: int, kind: RoomKind, entries: seq<Entry>, items: seq<Node>)
    requires AllWritten(channels, now, kind, entries, items)
    ensures |items| == |entries|
    ensures forall r :: Has(entries, r) ==> r in channels && channels[r].kind == kind
  {
    forall r | Has(entries, r)
      ensures r in channels && channels[r].kind == kind
    {
      var i :| 0 <= i < |entries| && entries[i].key == r;
      WrittenKey(channels, now, kind, entries[i], items[i]);
    }
  }

  /** What a file brings into an empty server: the channels of the two kinds, each
      as it was exactly when its bans can be stored. */
  lemma FileReads(channels: map<Name, Rec>, now: int, publics: seq<Entry>, open: seq<Node>,
                  privates: seq<Entry>, closed: seq<Node>)
    requires WellNamed(channels)
    requires Entered(channels, now, Public, publics, open) && Entered(channels, now, PubPrivate, privates, closed)
    ensures var m := LoadFile(map[], Some(File(open, closed)));
            && (forall r :: r in m <==> InFile(channels, r))
            && (forall r :: r in m ==> (m[r] == Pruned(channels[r], now) <==> Storable(channels[r], now)))
  {
    hide WellNamed, Entered, LoadList, Pruned, Storable, LowerKeys;
    NoKeys();
    var first := LoadList(map[], open, Public);
    KindComesBack(map[], channels, now, Public, publics, open);
    KindComesBack(first, channels, now, PubPrivate, privates, closed);
  }

  predicate InFile(channels: map<Name, Rec>, r: Name) {
    r in channels && (channels[r].kind == Public || channels[r].kind == PubPrivate)
  }

  /** Reading a file into an empty server restores exactly the public and the open
      private channels, each without its expired timeouts, if and only if the bans
      of all of them can be stored. */
  lemma FileComesBack(channels: map<Name, Rec>, now: int, publics: seq<Entry>, open: seq<Node>,
                      privates: seq<Entry>, closed: seq<Node>)
    requires WellNamed(channels)
    requires Entered(channels, now, Public, publics, open) && Entered(channels, now, PubPrivate, privates, closed)
    ensures LoadFile(map[], Some(File(open, closed))) == OfKind(channels, now, Public) + OfKind(channels, now, PubPrivate)
            <==> AllStorable(channels, now, Public) && AllStorable(channels, now, PubPrivate)
  {
    hide WellNamed, Entered, LoadFile, File, Pruned, Storable;
    FileReads(channels, now, publics, open, privates, closed);
    var all := OfKind(channels, now, Public) + OfKind(channels, now, PubPrivate);
    EqualExactlyWhen(LoadFile(map[], Some(File(open, closed))), all, set r | r in channels && Storable(channels[r], now));
  }

  lemma EqualExactlyWhen(m: map<Name, Rec>, all: map<Name, Rec>, fine: set<Name>)
    requires m.Keys == all.Keys && forall r :: r in all ==> (m[r] == all[r] <==> r in fine)
    ensures m == all <==> forall r :: r in all ==> r in fine
  {
  }

  lemma NoKeys()
    ensures LowerKeys(map[])
  {
  }
}

module Persistence {
  import opened PersistenceSpec
  import opened Options
  import opened RegistrySpec

  class Channel {
    const name: Name
    var description: string
    var chatMode: Mode
    var owner: Name
    var title: string
    var topUsers: int
    var kind: RoomKind
    var bans: map<Name, BanRecord>
    var moderators: map<Name, ModRecord>
    var participants: set<Name>

    function View(): Rec
      reads this
    {
      Rec(name, description, chatMode, owner, title, topUsers, kind, bans, moderators)
    }

    constructor (name: Name, kind: RoomKind)
      ensures View() == NewRec(name, kind, "") && participants == {}
    {
      this.name, this.kind := name, kind;
      description, chatMode, owner, title, topUsers := "", Both, "", "", 0;
      bans, moderators, participants := map[], map[], {};
    }

    method SaveBans(now: int) returns (items: seq<Node>, ghost order: seq<Name>)
      ensures Lists(order, Kept(bans, now).Keys) && items == BanNodes(order, Kept(bans, now))
    {
      items, order := [], [];
      ghost var kept := Kept(bans, now);
      var todo := bans.Keys;
      while todo != {}
        invariant todo <= bans.Keys && Lists(order, kept.Keys - todo) && items == BanNodes(order, kept)
        decreases todo
      {
        var n :| n in todo;
        var br := bans[n];
        todo := todo - {n};
        if br.timeout != 0 && br.timeout < now {
          continue;
        }
        AppendToList(order, kept.Keys - todo - {n}, n);
        assert (order + [n])[..|order|] == order;
        assert kept.Keys - todo == kept.Keys - todo - {n} + {n};
        items := items + [BanNode(n, br)];
        order := order + [n];
      }
      assert kept.Keys - todo == kept.Keys;
    }

    method SaveMods() returns (items: seq<Node>, ghost order: seq<Name>)
      ensures Lists(order, moderators.Keys) && items == ModNodes(order, moderators)
    {
      items, order := [], [];
      var todo := moderators.Keys;
      while todo != {}
        invariant todo <= moderators.Keys && Lists(order, moderators.Keys - todo) && items == ModNodes(order, moderators)
        decreases todo
      {
        var n :| n in todo;
        todo := todo - {n};
        AppendToList(order, moderators.Keys - todo - {n}, n);
        assert (order + [n])[..|order|] == order;
        assert moderators.Keys - todo == moderators.Keys - todo - {n} + {n};
        items := items + [ModNode(n, moderators[n])];
        order := order + [n];
      }
      assert moderators.Keys - todo == moderators.Keys;
    }

    /** The channel as JSON, without expired timeouts. */
    method SaveChannel(now: int) returns (node: Node, ghost banOrder: seq<Name>, ghost modOrder: seq<Name>)
      ensures Lists(banOrder, Kept(bans, now).Keys) && Lists(modOrder, moderators.Keys)
      ensures node == Save(View(), now, |participants|, banOrder, modOrder)
    {
      hide Lists, Kept, BanNodes, ModNodes;
      var banItems, modItems;
      banItems, banOrder := SaveBans(now);
      modItems, modOrder := SaveMods();
      node := JObject(map[
        "name" := JString(name), "description" := JString(description),
        "mode" := JString(ModeToString(chatMode)), "owner" := JString(owner), "users" := JInteger(|participants|),
        "title" := JString(title), "top" := JInteger(topUsers), "type" := JString(KindToString(kind)),
        "banlist" := JArray(banItems), "modlist" := JArray(modItems)]);
    }

    method ReadBans(items: seq<Node>)
      modifies `bans
      ensures bans == LoadBans(old(bans), Capped(items))
    {
      var size := if |items| > 300 then 300 else |items|;
      var l := 0;
      while l < size
        invariant 0 <= l <= size && bans == LoadBans(old(bans), items[..l])
      {
        var ban := items[l];
        l := l + 1;
        assert items[..l][..l - 1] == items[..l - 1];
        var banner := Get(ban, "banner");
        if banner == None {
          continue;
        }
        var time := Get(ban, "time");
        if time == None {
          continue;
        }
        var timeout := Get(ban, "timeout");
        var record := BanRecord(StringOr(banner, ""), IntegerOf(time.value),
                                if timeout.Some? then IntegerOf(timeout.value) else 0);
        var name := Get(ban, "name");
        if name.Some? && name.value.JString? {
          bans := bans[Lower(name.value.s) := record];
        }
      }
      assert items[..|items|] == items;
    }

    method ReadMods(items: seq<Node>)
      modifies `moderators
      ensures moderators == LoadMods(old(moderators), items)
    {
      var l := 0;
      while l < |items|
        invariant 0 <= l <= |items| && moderators == LoadMods(old(moderators), items[..l])
      {
        var mod := items[l];
        l := l + 1;
        assert items[..l][..l - 1] == items[..l - 1];
        var modder := Get(mod, "modder");
        if modder == None {
          continue;
        }
        var time := Get(mod, "time");
        if time == None {
          continue;
        }
        var name := Get(mod, "name");
        if name.Some? && name.value.JString? {
          moderators := moderators[name.value.s := ModRecord(StringOr(modder, ""), IntegerOf(time.value))];
        }
      }
      assert items[..l] == items;
    }

    /** Takes over what the JSON says, item by item. */
    method LoadChannel(node: Node)
      modifies this
      ensures View() == Load(old(View()), node) && participants == old(participants)
    {
      hide LoadBans, LoadMods, Capped, Get, StringOr, IntegerOf, ItemsOf, StringToMode, StringToKind;
      description := StringOr(Get(node, "description"), description);
      var mode := Get(node, "mode");
      chatMode := if mode.Some? && mode.value.JString? then StringToMode(mode.value.s) else chatMode;
      owner := StringOr(Get(node, "owner"), owner);
      ReadBans(ItemsOf(Get(node, "banlist")));
      ReadMods(ItemsOf(Get(node, "modlist")));
      title := StringOr(Get(node, "title"), title);
      var top := Get(node, "top");
      topUsers := if top.Some? then IntegerOf(top.value) else topUsers;
      var kindName := Get(node, "type");
      kind := if kindName.Some? && kindName.value.JString? then StringToKind(kindName.value.s) else kind;
    }
  }

  lemma AppendToList(order: seq<Name>, names: set<Name>, n: Name)
    requires Lists(order, names) && n !in names
    ensures Lists(order + [n], names + {n})
  {
  }

  // -------------------------------------------------------------------------
  // The file

  ghost function Views(channelMap: map<Name, Channel>): map<Name, Rec>
    reads channelMap.Values
  {
    map r | r in channelMap :: channelMap[r].View()
  }

  method SaveKind(channelMap: map<Name, Channel>, now: int, kind: RoomKind)
    returns (items: seq<Node>, ghost entries: seq<Entry>)
    ensures Entered(Views(channelMap), now, kind, entries, items)
  {
    hide Lists, Kept, Save;
    items, entries := [], [];
    ghost var views := Views(channelMap);
    var todo := channelMap.Keys;
    while todo != {}
      invariant todo <= channelMap.Keys && AllWritten(views, now, kind, entries, items)
      invariant forall r :: r in views && r !in todo && views[r].kind == kind ==> Has(entries, r)
      decreases todo
    {
      var r :| r in todo;
      todo := todo - {r};
      if channelMap[r].kind == kind {
        var node, banOrder, modOrder := channelMap[r].SaveChannel(now);
        ghost var e := Entry(r, |channelMap[r].participants|, banOrder, modOrder);
        HasMore(entries, e);
        items, entries := items + [node], entries + [e];
      }
    }
  }

  lemma HasMore(entries: seq<Entry>, e: Entry)
    ensures Has(entries + [e], e.key)
    ensures forall r :: Has(entries, r) ==> Has(entries + [e], r)
  {
    assert (entries + [e])[|entries|] == e;
    forall r | Has(entries, r)
      ensures Has(entries + [e], r)
    {
      var i :| 0 <= i < |entries| && entries[i].key == r;
      assert (entries + [e])[i].key == r;
    }
  }

  /** The public and the open private channels as one file. */
  method SaveChannels(channelMap: map<Name, Channel>, now: int)
    returns (root: Node, ghost publics: seq<Entry>, ghost open: seq<Node>, ghost privates: seq<Entry>, ghost closed: seq<Node>)
    ensures root == File(open, closed)
    ensures Entered(Views(channelMap), now, Public, publics, open)
    ensures Entered(Views(channelMap), now, PubPrivate, privates, closed)
  {
    var openItems, closedItems;
    openItems, publics := SaveKind(channelMap, now, Public);
    closedItems, privates := SaveKind(channelMap, now, PubPrivate);
    open, closed := openItems, closedItems;
    root := File(openItems, closedItems);
  }

  /** Every listed channel has a name; the code takes that for granted. */
  predicate AllNamed(items: seq<Node>) {
    forall i :: 0 <= i < |items| ==> var name := Get(items[i], "name"); name.Some? && name.value.JString?
  }

  method ReadOne(channelMap: map<Name, Channel>, item: Node, kind: RoomKind) returns (m: map<Name, Channel>)
    requires AllNamed([item])
    ensures Views(m) == LoadOne(Views(channelMap), item, kind)
    ensures forall r :: r in m ==> (r in channelMap && m[r] == channelMap[r]) || fresh(m[r])
  {
    hide Lower, Load, Channel.View;
    assert [item][0] == item;
    var name := Get(item, "name").value.s;
    m := channelMap - {name};
    var channel := new Channel(name, kind);
    channel.LoadChannel(item);
    m := m[Lower(name) := channel];
  }

  method ReadList(channelMap: map<Name, Channel>, items: seq<Node>, kind: RoomKind) returns (m: map<Name, Channel>)
    requires AllNamed(items)
    ensures Views(m) == LoadList(Views(channelMap), items, kind)
    ensures forall r :: r in m ==> (r in channelMap && m[r] == channelMap[r]) || fresh(m[r])
  {
    hide LoadOne, Views;
    m := channelMap;
    ghost var before := Views(channelMap);
    var i := 0;
    while i < |items|
      invariant 0 <= i <= |items| && Views(m) == LoadList(before, items[..i], kind)
      invariant forall r :: r in m ==> (r in channelMap && m[r] == channelMap[r]) || fresh(m[r])
    {
      assert items[..i + 1][..i] == items[..i];
      m := ReadOne(m, items[i], kind);
      i := i + 1;
    }
    assert items[..i] == items;
  }

  /** Reads the file, if there is one and as far as it has the two lists. */
  method LoadChannels(channelMap: map<Name, Channel>, root: Option<Node>) returns (m: map<Name, Channel>)
    requires root.Some? ==> AllNamed(ItemsOf(Get(root.value, "public"))) && AllNamed(ItemsOf(Get(root.value, "private")))
    ensures Views(m) == LoadFile(Views(channelMap), root)
  {
    m := channelMap;
    if root == None {
      return;
    }
    var open := Get(root.value, "public");
    if !IsArray(open) {
      return;
    }
    m := ReadList(m, open.value.items, Public);
    var closed := Get(root.value, "private");
    if !IsArray(closed) {
      return;
    }
    m := ReadList(m, closed.value.items, PubPrivate);
  }

  /** A restart: what was saved is read into an empty server. */
  method Restart(channelMap: map<Name, Channel>, now: int) returns (m: map<Name, Channel>)
    requires WellNamed(Views(channelMap))
    ensures var before := Views(channelMap);
            Views(m) == OfKind(before, now, Public) + OfKind(before, now, PubPrivate)
            <==> AllStorable(before, now, Public) && AllStorable(before, now, PubPrivate)
  {
    hide WellNamed, Entered, LoadFile, OfKind, AllStorable, AllNamed;
    ghost var before := Views(channelMap);
    ghost var publics, open, privates, closed;
    var root;
    root, publics, open, privates, closed := SaveChannels(channelMap, now);
    FileComesBack(before, now, publics, open, privates, closed);
    WrittenAreNamed(before, now, Public, publics, open);
    WrittenAreNamed(before, now, PubPrivate, privates, closed);
    m := LoadChannels(map[], Some(root));
    assert Views(map[]) == map[];
  }

  lemma WrittenAreNamed(channels: map<Name, Rec>, now: int, kind: RoomKind, entries: seq<Entry>, items: seq<Node>)
    requires Entered(channels, now, kind, entries, items)
    ensures AllNamed(items)
  {
    hide Save, Lists, Kept;
    forall i | 0 <= i < |items|
      ensures Get(items[i], "name").Some? && Get(items[i], "name").value.JString?
    {
      var e := entries[i];
      assert Written(channels, now, kind, e, items[i]);
      SavedFields(channels[e.key], now, e.users, e.banOrder, e.modOrder);
    }
  }
}
