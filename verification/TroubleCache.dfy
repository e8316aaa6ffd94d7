/** Decoding trouble frames by table, caching the items and announcing the changes. */
module TroubleCache {
  import opened Bytes
  import opened TroubleTables

  // ---------- Decoding ----------

  /** Reserved bits of communication modules yield an item only when they are set. */
  predicate Kept(key: Key, value: Value) { key.IsGeneric() ==> value == Active(true) }

  function Slot(rule: FieldRule, data: seq<byte>, i: nat): Item
    requires i < SlotCount(rule) && Reach(rule) <= |data|
  {
    Item(SlotKey(rule, i), SlotValue(rule, data, i))
  }

  /** The items of the first `j` rules and of the first `n` slots of the next one. */
  function ItemsUpTo(rules: seq<FieldRule>, data: seq<byte>, j: nat, n: nat): seq<Item>
    requires Inside(rules, |data|) && j <= |rules|
    requires n > 0 ==> j < |rules| && n <= SlotCount(rules[j])
    decreases j, n
  {
    if n > 0 then
      var item := Slot(rules[j], data, n - 1);
      ItemsUpTo(rules, data, j, n - 1) + if Kept(item.key, item.value) then [item] else []
    else if j > 0 then ItemsUpTo(rules, data, j - 1, SlotCount(rules[j - 1]))
    else []
  }

  predicate Accepts(cmd: byte, data: seq<byte>)
  {
    GetRules(cmd).Some? && GetRules(cmd).value.expectedLen <= |data|
  }

  /** The items of a frame; nothing for a foreign command or too few bytes. */
  function DecodeTroubles(cmd: byte, data: seq<byte>): Option<seq<Item>>
  {
    if !Accepts(cmd, data) then None
    else Some(ItemsUpTo(GetRules(cmd).value.rules, data, |GetRules(cmd).value.rules|, 0))
  }

  /** The loop over the rules and, inside it, over the bits, levels or codes of each rule. */
  method Decode(cmd: byte, data: seq<byte>) returns (items: Option<seq<Item>>)
    ensures items == DecodeTroubles(cmd, data)
  {
    hide SlotKey, SlotValue, SlotCount;
    var table := GetRules(cmd);
    if table.None? || |data| < table.value.expectedLen {
      return None;
    }
    var rules := table.value.rules;
    var found := [];
    for j := 0 to |rules|
      invariant found == ItemsUpTo(rules, data, j, 0)
    {
      var rule := rules[j];
      for i := 0 to SlotCount(rule)
        invariant found == ItemsUpTo(rules, data, j, i)
      {
        var item := Slot(rule, data, i);
        if !item.key.IsGeneric() || item.value == Active(true) {
          found := found + [item];
        }
      }
    }
    return Some(found);
  }

  // ---------- What a frame says about a key ----------

  type entries = map<Key, Value>

  function Lookup(m: entries, k: Key): Option<Value> { if k in m then Some(m[k]) else None }

  function MapOf(items: seq<Item>): entries
  {
    if items == [] then map[]
    else
      var last := items[|items| - 1];
      MapOf(items[..|items| - 1])[last.key := last.value]
  }

  /** A table produces this key, at its home. */
  predicate IsProduced(k: Key)
  {
    var home := Home(k);
    && GetRules(home.cmd).Some?
    && home.rule < |GetRules(home.cmd).value.rules|
    && 0 <= home.slot < SlotCount(GetRules(home.cmd).value.rules[home.rule])
    && SlotKey(GetRules(home.cmd).value.rules[home.rule], home.slot) == k
  }

  /** What the data of the owning command holds for a key. */
  function ValueIn(k: Key, data: seq<byte>): Value
    requires IsProduced(k) && Accepts(Home(k).cmd, data)
  {
    SlotValue(GetRules(Home(k).cmd).value.rules[Home(k).rule], data, Home(k).slot)
  }

  /** What a frame says about a key, read off its home. */
  function Entry(cmd: byte, data: seq<byte>, k: Key): Option<Value>
  {
    if Accepts(cmd, data) && IsProduced(k) && Home(k).cmd == cmd && Kept(k, ValueIn(k, data))
    then Some(ValueIn(k, data)) else None
  }

  predicate Before(home: Origin, j: nat, n: nat)
  {
    home.rule < j || (home.rule == j && home.slot < n)
  }

  lemma MapOfAppend(items: seq<Item>, item: Item)
    ensures MapOf(items + [item]) == MapOf(items)[item.key := item.value]
  {
    assert (items + [item])[..|items|] == items;
  }

  /** The items so far hold exactly the entries at home so far. */
  lemma {:induction false} ItemsAreEntries(cmd: byte, data: seq<byte>, j: nat, n: nat, k: Key)
    requires Accepts(cmd, data)
    requires var rules := GetRules(cmd).value.rules;
      j <= |rules| && (n > 0 ==> j < |rules| && n <= SlotCount(rules[j]))
    ensures Lookup(MapOf(ItemsUpTo(GetRules(cmd).value.rules, data, j, n)), k)
         == if Before(Home(k), j, n) then Entry(cmd, data, k) else None
    decreases j, n
  {
    hide SlotKey, SlotValue, SlotCount, Home, GetRules;
    var rules := GetRules(cmd).value.rules;
    if n > 0 {
      var item := Slot(rules[j], data, n - 1);
      ItemsAreEntries(cmd, data, j, n - 1, k);
      MapOfAppend(ItemsUpTo(rules, data, j, n - 1), item);
      SlotAtHome(cmd, j, n - 1);
      assert ItemsUpTo(rules, data, j, n - 1) + [] == ItemsUpTo(rules, data, j, n - 1);
      assert Before(Home(k), j, n) && !Before(Home(k), j, n - 1) ==>
        Home(k).rule == j && Home(k).slot == n - 1;
      assert k != item.key && Home(k) == Origin(cmd, j, n - 1) ==> !IsProduced(k);
    } else if j > 0 {
      ItemsAreEntries(cmd, data, j - 1, SlotCount(rules[j - 1]), k);
    }
  }

  lemma FrameEntries(cmd: byte, data: seq<byte>, k: Key)
    requires Accepts(cmd, data)
    ensures Lookup(MapOf(DecodeTroubles(cmd, data).value), k) == Entry(cmd, data, k)
  {
    hide SlotKey, SlotValue, SlotCount, Home, GetRules;
    ItemsAreEntries(cmd, data, |GetRules(cmd).value.rules|, 0, k);
  }

  // ---------- The cache ----------

  function Default(k: Key): Value
  {
    match k
    case Flag(_, _) => Active(false)
    case JamLevel(_) => Level(0)
    case CmeCode(_, _, _) => Code(0)
  }

  function Known(m: entries, k: Key): Value { if k in m then m[k] else Default(k) }

  /** The three cache maps, as one, and the events sent so far. */
  datatype Troubles = Troubles(cache: entries, events: seq<Item>)

  function StoreOne(t: Troubles, item: Item, emitUnchanged: bool): Troubles
  {
    var changed := Known(t.cache, item.key) != item.value;
    Troubles(t.cache[item.key := item.value],
             if changed || emitUnchanged then t.events + [item] else t.events)
  }

  function StoreAll(t: Troubles, items: seq<Item>, emitUnchanged: bool): Troubles
  {
    if items == [] then t
    else StoreOne(StoreAll(t, items[..|items| - 1], emitUnchanged), items[|items| - 1], emitUnchanged)
  }

  datatype Frame = Frame(cmd: byte, data: seq<byte>, emitUnchanged: bool)

  function Update(t: Troubles, f: Frame): Troubles
  {
    match DecodeTroubles(f.cmd, f.data)
    case None => t
    case Some(items) => StoreAll(t, items, f.emitUnchanged)
  }

  class TroubleStore {
    var cache: entries
    var events: seq<Item>

    constructor ()
      ensures Troubles(cache, events) == Troubles(map[], [])
    {
      cache, events := map[], [];
    }

    method UpdateTroubles(f: Frame) returns (ok: bool)
      modifies this
      ensures ok <==> Accepts(f.cmd, f.data)
      ensures Troubles(cache, events) == Update(old(Troubles(cache, events)), f)
    {
      var decoded := Decode(f.cmd, f.data);
      if decoded.None? {
        return false;
      }
      var items := decoded.value;
      for i := 0 to |items|
        invariant Troubles(cache, events) == StoreAll(old(Troubles(cache, events)), items[..i], f.emitUnchanged)
      {
        var item := items[i];
        var prev := if item.key in cache then cache[item.key] else Default(item.key);
        cache := cache[item.key := item.value];
        if prev != item.value || f.emitUnchanged {
          events := events + [item];
        }
        assert items[..i + 1][..i] == items[..i];
      }
      assert items[..|items|] == items;
      return true;
    }
  }

  lemma {:induction false} StoreAllIsUnion(t: Troubles, items: seq<Item>, emitUnchanged: bool)
    ensures StoreAll(t, items, emitUnchanged).cache == t.cache + MapOf(items)
    decreases |items|
  {
    if items != [] {
      StoreAllIsUnion(t, items[..|items| - 1], emitUnchanged);
    }
  }

  /** One frame overwrites exactly the entries it has. */
  lemma UpdateOverwrites(t: Troubles, f: Frame, k: Key)
    ensures Lookup(Update(t, f).cache, k)
         == match Entry(f.cmd, f.data, k) case Some(v) => Some(v) case None => Lookup(t.cache, k)
  {
    hide Home, GetRules, SlotKey, SlotCount, SlotValue, ItemsUpTo, IsProduced;
    if Accepts(f.cmd, f.data) {
      StoreAllIsUnion(t, DecodeTroubles(f.cmd, f.data).value, f.emitUnchanged);
      FrameEntries(f.cmd, f.data, k);
    }
  }

  function UpdateAll(frames: seq<Frame>): Troubles
  {
    if frames == [] then Troubles(map[], []) else Update(UpdateAll(frames[..|frames| - 1]), frames[|frames| - 1])
  }

  /** The latest thing any frame has said about a key. */
  function LastEntry(frames: seq<Frame>, k: Key): Option<Value>
  {
    if frames == [] then None
    else
      var f := frames[|frames| - 1];
      match Entry(f.cmd, f.data, k)
      case Some(v) => Some(v)
      case None => LastEntry(frames[..|frames| - 1], k)
  }

  /** Main result: after every sequence of frames the cache holds, for every key, the value from
  the latest frame that says anything about it, and that frame is of the command owning it. */
  lemma {:induction false} CacheHoldsLastEntry(frames: seq<Frame>, k: Key)
    ensures Lookup(UpdateAll(frames).cache, k) == LastEntry(frames, k)
    decreases |frames|
  {
    hide Entry, Update;
    if frames != [] {
      CacheHoldsLastEntry(frames[..|frames| - 1], k);
      UpdateOverwrites(UpdateAll(frames[..|frames| - 1]), frames[|frames| - 1], k);
    }
  }

  /** For a key without reserved bit that is the last accepted frame of its command; for a reserved
  bit it is `true` from the first time the bit is set, for ever. */
  lemma OwnCommandDecides(cmd: byte, data: seq<byte>, k: Key)
    ensures Entry(cmd, data, k).Some? ==> IsProduced(k) && Home(k).cmd == cmd && Accepts(cmd, data)
    ensures !k.IsGeneric() && IsProduced(k) && Home(k).cmd == cmd && Accepts(cmd, data) ==>
              Entry(cmd, data, k) == Some(ValueIn(k, data))
    ensures k.IsGeneric() && Entry(cmd, data, k).Some? ==> Entry(cmd, data, k) == Some(Active(true))
  {
  }

  lemma {:induction false} ReservedBitsLatch(frames: seq<Frame>, more: seq<Frame>, k: Key)
    requires k.IsGeneric() && LastEntry(frames, k).Some?
    ensures LastEntry(frames + more, k) == Some(Active(true))
    decreases |frames| + |more|
  {
    hide Entry, Home;
    var all := frames + more;
    var n := |all| - 1;
    if more == [] {
      assert all == frames;
      OwnCommandDecides(all[n].cmd, all[n].data, k);
      if Entry(all[n].cmd, all[n].data, k).None? {
        ReservedBitsLatch(frames[..n], [], k);
        assert frames[..n] + [] == frames[..n];
      }
    } else {
      assert all[..n] == frames + more[..|more| - 1];
      ReservedBitsLatch(frames, more[..|more| - 1], k);
      OwnCommandDecides(all[n].cmd, all[n].data, k);
    }
  }

  /** An accepted frame of the owning command in which a reserved bit is set. */
  predicate SetsBit(f: Frame, k: Key)
  {
    IsProduced(k) && f.cmd == Home(k).cmd && Accepts(f.cmd, f.data) && ValueIn(k, f.data) == Active(true)
  }

  lemma EntryOfBit(f: Frame, k: Key)
    requires k.IsGeneric()
    ensures Entry(f.cmd, f.data, k) == if SetsBit(f, k) then Some(Active(true)) else None
  {
    hide Home, GetRules, SlotKey, SlotCount, SlotValue, IsProduced;
  }

  /** Main result: after every sequence of frames the cache holds a reserved bit, as set, exactly if
  some accepted frame of its owning command had it set, and else does not know it. So it disagrees
  with the last such frame exactly if that frame has the bit clear and an earlier one had it set. */
  lemma {:induction false} ReservedBitsExactly(frames: seq<Frame>, k: Key)
    requires k.IsGeneric()
    ensures Lookup(UpdateAll(frames).cache, k) ==
      if exists i :: 0 <= i < |frames| && SetsBit(frames[i], k) then Some(Active(true)) else None
    decreases |frames|
  {
    hide Entry, Update, SetsBit;
    if frames != [] {
      var n := |frames| - 1;
      ReservedBitsExactly(frames[..n], k);
      UpdateOverwrites(UpdateAll(frames[..n]), frames[n], k);
      EntryOfBit(frames[n], k);
      if exists i :: 0 <= i < n && SetsBit(frames[..n][i], k) {
        var i :| 0 <= i < n && SetsBit(frames[..n][i], k);
        assert SetsBit(frames[i], k);
      }
      if exists i :: 0 <= i < |frames| && SetsBit(frames[i], k) {
        var i :| 0 <= i < |frames| && SetsBit(frames[i], k);
        assert i == n || SetsBit(frames[..n][i], k);
      }
    }
  }

  /** The data of the last accepted frame of a command. */
  function LastFrame(frames: seq<Frame>, cmd: byte): Option<seq<byte>>
  {
    if frames == [] then None
    else
      var f := frames[|frames| - 1];
      if f.cmd == cmd && Accepts(f.cmd, f.data) then Some(f.data) else LastFrame(frames[..|frames| - 1], cmd)
  }

  lemma {:induction false} LastFrameAccepted(frames: seq<Frame>, cmd: byte)
    ensures LastFrame(frames, cmd).Some? ==> Accepts(cmd, LastFrame(frames, cmd).value)
    decreases |frames|
  {
    hide Accepts;
    if frames != [] {
      LastFrameAccepted(frames[..|frames| - 1], cmd);
    }
  }

  /** What the last accepted frame of the owning command says about a key. */
  function OwnersValue(frames: seq<Frame>, k: Key): Option<Value>
  {
    LastFrameAccepted(frames, Home(k).cmd);
    match LastFrame(frames, Home(k).cmd)
    case Some(data) => if IsProduced(k) then Some(ValueIn(k, data)) else None
    case None => None
  }

  /** Main result: after every sequence of frames each key, reserved bits apart, holds what the
  last accepted frame of its one owning command says, whatever other frames came in between. */
  lemma {:induction false} OwnerDecides(frames: seq<Frame>, k: Key)
    requires !k.IsGeneric()
    ensures Lookup(UpdateAll(frames).cache, k) == OwnersValue(frames, k)
    decreases |frames|
  {
    hide Update, Entry, ValueIn, IsProduced, Home, Accepts;
    if frames != [] {
      var n := |frames| - 1;
      OwnerDecides(frames[..n], k);
      UpdateOverwrites(UpdateAll(frames[..n]), frames[n], k);
      OwnCommandDecides(frames[n].cmd, frames[n].data, k);
    }
  }

  /** Main result: frames of different commands commute in the cache. */
  lemma FramesCommute(t: Troubles, f: Frame, g: Frame)
    requires f.cmd != g.cmd
    ensures Update(Update(t, f), g).cache == Update(Update(t, g), f).cache
  {
    hide Entry, Update, Home;
    var a, b := Update(Update(t, f), g).cache, Update(Update(t, g), f).cache;
    forall k: Key ensures Lookup(a, k) == Lookup(b, k) {
      UpdateOverwrites(t, f, k);
      UpdateOverwrites(t, g, k);
      UpdateOverwrites(Update(t, f), g, k);
      UpdateOverwrites(Update(t, g), f, k);
      OwnCommandDecides(f.cmd, f.data, k);
      OwnCommandDecides(g.cmd, g.data, k);
    }
    SameLookups(a, b);
  }

  lemma SameLookups(a: entries, b: entries)
    requires forall k: Key :: Lookup(a, k) == Lookup(b, k)
    ensures a == b
  {
    forall k: Key ensures k in a <==> k in b {
      assert Lookup(a, k) == Lookup(b, k);
    }
    forall k | k in a ensures a[k] == b[k] {
      assert Lookup(a, k) == Lookup(b, k);
    }
  }

  // ---------- Which items a frame announces ----------

  /** The order of the items in a frame. */
  predicate Earlier(a: Origin, b: Origin) { a.rule < b.rule || (a.rule == b.rule && a.slot < b.slot) }

  ghost predicate InOrder(items: seq<Item>)
  {
    forall i, j :: 0 <= i < j < |items| ==> Earlier(Home(items[i].key), Home(items[j].key))
  }

  /** What a cache says of a key: flags never heard of are inactive, levels and codes zero. */
  predicate Says(cache: entries, item: Item)
  {
    if item.key in cache then cache[item.key] == item.value
    else
      match item.key
      case Flag(_, _) => item.value == Active(false)
      case JamLevel(_) => item.value == Level(0)
      case CmeCode(_, _, _) => item.value == Code(0)
  }

  /** The items to announce, judged by the cache as it was before the frame. */
  function Announced(cache: entries, items: seq<Item>, emitUnchanged: bool): seq<Item>
  {
    if items == [] then []
    else
      var last := items[|items| - 1];
      Announced(cache, items[..|items| - 1], emitUnchanged)
        + if emitUnchanged || !Says(cache, last) then [last] else []
  }

  lemma AnnouncedAppend(cache: entries, items: seq<Item>, item: Item, emitUnchanged: bool)
    ensures Announced(cache, items + [item], emitUnchanged) ==
      Announced(cache, items, emitUnchanged) + if emitUnchanged || !Says(cache, item) then [item] else []
  {
    assert (items + [item])[..|items|] == items;
  }

  /** The items so far are those of slots so far, in order. */
  lemma {:induction false} ItemsAreInOrder(cmd: byte, data: seq<byte>, j: nat, n: nat)
    requires Accepts(cmd, data)
    requires var rules := GetRules(cmd).value.rules;
      j <= |rules| && (n > 0 ==> j < |rules| && n <= SlotCount(rules[j]))
    ensures var items := ItemsUpTo(GetRules(cmd).value.rules, data, j, n);
      && InOrder(items)
      && forall i :: 0 <= i < |items| ==>
           Before(Home(items[i].key), j, n) && Entry(cmd, data, items[i].key) == Some(items[i].value)
    decreases j, n
  {
    hide SlotKey, SlotValue, SlotCount, Home, GetRules;
    var rules := GetRules(cmd).value.rules;
    if n > 0 {
      var item := Slot(rules[j], data, n - 1);
      var before := ItemsUpTo(rules, data, j, n - 1);
      ItemsAreInOrder(cmd, data, j, n - 1);
      SlotAtHome(cmd, j, n - 1);
      assert before + [] == before;
      if Kept(item.key, item.value) {
        InOrderNext(before, item, j, n - 1);
      }
    } else if j > 0 {
      ItemsAreInOrder(cmd, data, j - 1, SlotCount(rules[j - 1]));
    }
  }

  lemma InOrderNext(items: seq<Item>, item: Item, j: nat, n: nat)
    requires InOrder(items) && Home(item.key).rule == j && Home(item.key).slot == n
    requires forall i :: 0 <= i < |items| ==> Before(Home(items[i].key), j, n)
    ensures InOrder(items + [item])
  {
    hide Home;
  }

  /** As no key comes twice in a frame, storing item by item announces by the cache before the frame. */
  lemma {:induction false} StoreAnnounces(t: Troubles, items: seq<Item>, emitUnchanged: bool)
    requires InOrder(items)
    ensures var u := StoreAll(t, items, emitUnchanged);
      && u.events == t.events + Announced(t.cache, items, emitUnchanged)
      && forall k: Key :: (forall i :: 0 <= i < |items| ==> items[i].key != k) ==>
           Lookup(u.cache, k) == Lookup(t.cache, k)
    decreases |items|
  {
    hide Home;
    if items == [] {
      assert t.events + [] == t.events;
    } else {
      var n := |items| - 1;
      var front, item := items[..n], items[n];
      assert InOrder(front);
      StoreAnnounces(t, front, emitUnchanged);
      assert forall i :: 0 <= i < n ==> front[i].key != item.key by {
        assert forall i :: 0 <= i < n ==> Earlier(Home(items[i].key), Home(item.key));
      }
      var u := StoreAll(t, front, emitUnchanged);
      assert Lookup(u.cache, item.key) == Lookup(t.cache, item.key);
      SaysKnown(t.cache, u.cache, item);
      if emitUnchanged || !Says(t.cache, item) {
        assert u.events + [item] == t.events + (Announced(t.cache, front, emitUnchanged) + [item]);
      } else {
        assert Announced(t.cache, front, emitUnchanged) + [] == Announced(t.cache, front, emitUnchanged);
      }
      StoreOneLookup(u, item, emitUnchanged);
      forall k: Key | forall i :: 0 <= i < |items| ==> items[i].key != k
        ensures Lookup(StoreOne(u, item, emitUnchanged).cache, k) == Lookup(t.cache, k)
      {
        assert items[n].key != k;
        assert forall i :: 0 <= i < n ==> front[i].key == items[i].key;
      }
    }
  }

  lemma StoreOneLookup(t: Troubles, item: Item, emitUnchanged: bool)
    ensures forall k: Key :: k != item.key ==> Lookup(StoreOne(t, item, emitUnchanged).cache, k) == Lookup(t.cache, k)
  {
  }

  lemma SaysKnown(before: entries, now: entries, item: Item)
    requires Lookup(now, item.key) == Lookup(before, item.key)
    ensures Known(now, item.key) == item.value <==> Says(before, item)
  {
  }

  lemma {:induction false} AnnouncedExactly(cache: entries, items: seq<Item>, emitUnchanged: bool)
    requires InOrder(items)
    ensures InOrder(Announced(cache, items, emitUnchanged))
    ensures forall item :: item in Announced(cache, items, emitUnchanged) <==>
      item in items && (emitUnchanged || !Says(cache, item))
    decreases |items|
  {
    hide Home, Says;
    if items != [] {
      var n := |items| - 1;
      var front := items[..n];
      assert InOrder(front);
      AnnouncedExactly(cache, front, emitUnchanged);
      assert items == front + [items[n]];
      var before := Announced(cache, front, emitUnchanged);
      if emitUnchanged || !Says(cache, items[n]) {
        forall i | 0 <= i < |before| ensures Earlier(Home(before[i].key), Home(items[n].key)) {
          assert before[i] in front;
          var k :| 0 <= k < n && front[k] == before[i];
          assert items[k] == before[i];
        }
        assert InOrder(before + [items[n]]);
      } else {
        assert before + [] == before;
      }
    }
  }

  lemma {:induction false} MapHasItem(items: seq<Item>, k: Key)
    ensures Lookup(MapOf(items), k).Some? ==> Item(k, Lookup(MapOf(items), k).value) in items
    decreases |items|
  {
    if items != [] {
      MapHasItem(items[..|items| - 1], k);
    }
  }

  /** Main result: the events of a frame are, once each and in the order of the frame, exactly the items it
  has that differ from the cache before it (where a flag never heard of is inactive, and a level or code
  zero), or all of them if unchanged ones are to be announced too. */
  lemma AnnouncesExactly(t: Troubles, f: Frame, item: Item)
    ensures var events := Update(t, f).events;
      && t.events <= events
      && var added := events[|t.events|..];
         && InOrder(added)
         && (item in added <==>
               Entry(f.cmd, f.data, item.key) == Some(item.value) && (f.emitUnchanged || !Says(t.cache, item)))
  {
    hide Home, Entry, Says, StoreAll, ItemsUpTo, Announced, InOrder;
    NoEntry(f, item.key);
    match DecodeTroubles(f.cmd, f.data)
    case None =>
      NothingInOrder();
      assert t.events[|t.events|..] == [];
    case Some(items) =>
      FrameIsInOrder(f.cmd, f.data);
      StoreAnnounces(t, items, f.emitUnchanged);
      AnnouncedExactly(t.cache, items, f.emitUnchanged);
      var added := Announced(t.cache, items, f.emitUnchanged);
      assert (t.events + added)[|t.events|..] == added;
      FrameEntries(f.cmd, f.data, item.key);
      MapHasItem(items, item.key);
      if item in items {
        var i :| 0 <= i < |items| && items[i] == item;
      }
  }

  lemma NoEntry(f: Frame, k: Key)
    ensures !Accepts(f.cmd, f.data) ==> Entry(f.cmd, f.data, k).None?
  {
  }

  lemma NothingInOrder()
    ensures InOrder([])
  {
  }

  lemma FrameIsInOrder(cmd: byte, data: seq<byte>)
    requires Accepts(cmd, data)
    ensures var items := DecodeTroubles(cmd, data).value;
      InOrder(items) && forall i :: 0 <= i < |items| ==> Entry(cmd, data, items[i].key) == Some(items[i].value)
  {
    hide Home, Entry, InOrder, ItemsUpTo, GetRules;
    ItemsAreInOrder(cmd, data, |GetRules(cmd).value.rules|, 0);
  }

  // ---------- Replaying the events ----------

  /** A subscriber that starts from inactive flags and zero levels and codes agrees. */
  ghost predicate Agrees(seen: entries, cache: entries)
  {
    forall k: Key :: Known(seen, k) == Known(cache, k)
  }

  lemma {:induction false} StoreKeepsAgreement(t: Troubles, items: seq<Item>, emitUnchanged: bool)
    requires Agrees(MapOf(t.events), t.cache)
    ensures var u := StoreAll(t, items, emitUnchanged); Agrees(MapOf(u.events), u.cache)
    decreases |items|
  {
    if items != [] {
      var n := |items| - 1;
      StoreKeepsAgreement(t, items[..n], emitUnchanged);
      var u := StoreAll(t, items[..n], emitUnchanged);
      MapOfAppend(u.events, items[n]);
      var after := StoreOne(u, items[n], emitUnchanged);
      forall k: Key ensures Known(MapOf(after.events), k) == Known(after.cache, k) {
        assert Known(MapOf(u.events), k) == Known(u.cache, k);
      }
    }
  }

  /** Main result: replaying the events from the defaults gives the cache, after any frames. */
  lemma {:induction false} EventsReplayToCache(frames: seq<Frame>)
    ensures Agrees(MapOf(UpdateAll(frames).events), UpdateAll(frames).cache)
    decreases |frames|
  {
    hide DecodeTroubles, StoreAll;
    if frames != [] {
      var n := |frames| - 1;
      EventsReplayToCache(frames[..n]);
      var decoded := DecodeTroubles(frames[n].cmd, frames[n].data);
      if decoded.Some? {
        StoreKeepsAgreement(UpdateAll(frames[..n]), decoded.value, frames[n].emitUnchanged);
      }
    }
  }
}
