/** The channel file in plain terms: which fields it has, what is written into them
    and what is read out of them. */
module PersistenceLaws {
  import opened Options
  import opened RegistrySpec
  import opened PersistenceSpec

  // -------------------------------------------------------------------------
  // Writing

  lemma WordsWritten()
    ensures ModeToString(Both) == "both" && ModeToString(AdsOnly) == "ads" && ModeToString(ChatOnly) == "chat"
    ensures KindToString(Public) == "public" && KindToString(PubPrivate) == "pubprivate" && KindToString(Private) == "private"
  {
  }

  /** The ten fields of a channel. */
  lemma ChannelWritten(rec: Rec, now: int, users: int, banOrder: seq<Name>, modOrder: seq<Name>)
    requires Lists(banOrder, Kept(rec.bans, now).Keys) && Lists(modOrder, rec.mods.Keys)
    ensures Save(rec, now, users, banOrder, modOrder)
         == JObject(map["name" := JString(rec.name), "description" := JString(rec.description),
                        "mode" := JString(match rec.mode case Both => "both" case AdsOnly => "ads" case ChatOnly => "chat"),
                        "owner" := JString(rec.owner), "users" := JInteger(users), "title" := JString(rec.title),
                        "top" := JInteger(rec.top),
                        "type" := JString(match rec.kind case Public => "public" case PubPrivate => "pubprivate"
                                                         case Private => "private"),
                        "banlist" := JArray(BanNodes(banOrder, Kept(rec.bans, now))),
                        "modlist" := JArray(ModNodes(modOrder, rec.mods))])
  {
  }

  /** A timeout is left out once its end lies in the past; a ban never is. */
  lemma KeptExactlyWhen(bans: map<Name, BanRecord>, now: int, n: Name)
    ensures n in Kept(bans, now) <==> n in bans && (bans[n].timeout == 0 || now <= bans[n].timeout)
    ensures n in Kept(bans, now) ==> Kept(bans, now)[n] == bans[n]
  {
  }

  lemma {:induction false} BansWritten(order: seq<Name>, bans: map<Name, BanRecord>, i: nat)
    requires (forall n :: n in order ==> n in bans) && i < |order|
    ensures BanNodes(order, bans)[i]
         == JObject(map["name" := JString(order[i]), "banner" := JString(bans[order[i]].banner),
                        "timeout" := JInteger(bans[order[i]].timeout), "time" := JInteger(bans[order[i]].time)])
    decreases |order|
  {
    if i < |order| - 1 {
      BansWritten(order[..|order| - 1], bans, i);
    }
  }

  lemma {:induction false} ModsWritten(order: seq<Name>, mods: map<Name, ModRecord>, i: nat)
    requires (forall n :: n in order ==> n in mods) && i < |order|
    ensures ModNodes(order, mods)[i]
         == JObject(map["name" := JString(order[i]), "modder" := JString(mods[order[i]].modder),
                        "time" := JInteger(mods[order[i]].time)])
    decreases |order|
  {
    if i < |order| - 1 {
      ModsWritten(order[..|order| - 1], mods, i);
    }
  }

  // -------------------------------------------------------------------------
  // Reading

  lemma WordsRead(s: string)
    ensures StringToMode(s) == (if s == "ads" then AdsOnly else if s == "chat" then ChatOnly else Both)
    ensures StringToKind(s) == (if s == "public" then Public else if s == "pubprivate" then PubPrivate else Private)
  {
  }

  /** A string field; anything else, or nothing, leaves what was there. */
  function Word(f: map<string, Node>, key: string, was: string): string {
    if key in f && f[key].JString? then f[key].s else was
  }

  /** A number field; something that is no number counts as zero. */
  function Number(f: map<string, Node>, key: string, was: int): int {
    if key !in f then was else if f[key].JInteger? then f[key].i else 0
  }

  /** What is there, and of the right type, replaces what the channel had. */
  lemma ChannelRead(rec: Rec, f: map<string, Node>)
    ensures var r := Load(rec, JObject(f));
            && r.name == rec.name
            && r.description == Word(f, "description", rec.description) && r.owner == Word(f, "owner", rec.owner)
            && r.title == Word(f, "title", rec.title) && r.top == Number(f, "top", rec.top)
            && r.mode == (if "mode" in f && f["mode"].JString?
                          then if f["mode"].s == "ads" then AdsOnly else if f["mode"].s == "chat" then ChatOnly else Both
                          else rec.mode)
            && r.kind == (if "type" in f && f["type"].JString?
                          then if f["type"].s == "public" then Public else if f["type"].s == "pubprivate" then PubPrivate else Private
                          else rec.kind)
            && r.bans == LoadBans(rec.bans, if "banlist" in f && f["banlist"].JArray?
                                            then if |f["banlist"].items| > 300 then f["banlist"].items[..300] else f["banlist"].items
                                            else [])
            && r.mods == LoadMods(rec.mods, if "modlist" in f && f["modlist"].JArray? then f["modlist"].items else [])
  {
    hide LoadBans, LoadMods;
  }

  /** One entry of a ban list: without a banner, a time or a name it says nothing;
      without an end the ban is for good; the name loses its case. */
  lemma BanRead(bans: map<Name, BanRecord>, f: map<string, Node>)
    ensures LoadBan(bans, JObject(f))
         == if "banner" in f && "time" in f && "name" in f && f["name"].JString?
            then bans[Lower(f["name"].s) := BanRecord(Word(f, "banner", ""), Number(f, "time", 0), Number(f, "timeout", 0))]
            else bans
  {
    hide Lower;
  }

  /** One entry of a moderator list; the name keeps its case. */
  lemma ModRead(mods: map<Name, ModRecord>, f: map<string, Node>)
    ensures LoadMod(mods, JObject(f))
         == if "modder" in f && "time" in f && "name" in f && f["name"].JString?
            then mods[f["name"].s := ModRecord(Word(f, "modder", ""), Number(f, "time", 0))]
            else mods
  {
  }

  /** Later entries count over earlier ones. */
  lemma LastEntryCounts(bans: map<Name, BanRecord>, items: seq<Node>, item: Node)
    ensures LoadBans(bans, []) == bans && LoadBans(bans, items + [item]) == LoadBan(LoadBans(bans, items), item)
  {
    assert (items + [item])[..|items|] == items;
  }

  // -------------------------------------------------------------------------
  // The file

  lemma FileWritten(publics: seq<Node>, privates: seq<Node>)
    ensures File(publics, privates) == JObject(map["public" := JArray(publics), "private" := JArray(privates)])
  {
  }

  /** The list "public" is read into public channels, then "private" into open private
      ones; without the first nothing is read. */
  lemma FileRead(channels: map<Name, Rec>, f: map<string, Node>)
    ensures LoadFile(channels, None) == channels
    ensures LoadFile(channels, Some(JObject(f)))
         == if "public" in f && f["public"].JArray?
            then var read := LoadList(channels, f["public"].items, Public);
                 if "private" in f && f["private"].JArray? then LoadList(read, f["private"].items, PubPrivate) else read
            else channels
  {
    hide LoadList;
  }

  /** A channel comes back exactly if at most 300 of its records are in force and all
      of these are under lower-case names. */
  lemma StorableExactlyWhen(rec: Rec, now: int)
    ensures Storable(rec, now)
            <==> && |set n | n in rec.bans && (rec.bans[n].timeout == 0 || now <= rec.bans[n].timeout)| <= 300
                 && forall n :: n in rec.bans && (rec.bans[n].timeout == 0 || now <= rec.bans[n].timeout) ==> Lower(n) == n
  {
    hide Lower;
    var kept := Kept(rec.bans, now);
    assert kept.Keys == set n | n in rec.bans && (rec.bans[n].timeout == 0 || now <= rec.bans[n].timeout);
    assert |kept| == |kept.Keys|;
  }

  /** A channel of the file starts from nothing under its own name and goes into the
      map under the lower-case one. */
  lemma ChannelStored(channels: map<Name, Rec>, f: map<string, Node>, kind: RoomKind)
    ensures var name := Word(f, "name", "");
            LoadOne(channels, JObject(f), kind)
            == (channels - {name})[Lower(name) := Load(Rec(name, "", Both, "", "", 0, kind, map[], map[]), JObject(f))]
  {
    hide Lower, Load;
  }
}
