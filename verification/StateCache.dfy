/** The cached zone, partition and output states, and the events that announce them. */
module StateCache {
  import opened Bytes

  // ---------- Frames as bit vectors ----------

  /** What a state frame carries: at least `minBytes`, of which only the first `only` count, if
  that is given; `capacity` is the number of items cached; zone bits can be inverted. */
  datatype Layout = Layout(minBytes: nat, only: Option<nat>, capacity: nat, invertible: bool)

  const ZONE_LAYOUT := Layout(16, None, 256, true)
  const PARTITION_LAYOUT := Layout(4, Some(4), 32, false)
  const OUTPUT_LAYOUT := Layout(16, None, 256, false)

  const PARTITION_COMMANDS: set<byte> := {0x09, 0x0A, 0x0E, 0x0F, 0x10, 0x13, 0x15}

  function LayoutOf(cmd: byte): Option<Layout>
  {
    if cmd <= 0x08 then Some(ZONE_LAYOUT)
    else if cmd in PARTITION_COMMANDS then Some(PARTITION_LAYOUT)
    else if cmd == 0x17 then Some(OUTPUT_LAYOUT)
    else None
  }

  /** The number under which bit `pos` is listed for inversion, a 16-bit number. */
  function ListedId(pos: nat): nat { (pos + 1) % 0x1_0000 }

  predicate StateBit(data: seq<byte>, pos: nat, invert: set<nat>)
    requires pos < 8 * |data|
  {
    BitAt(data, pos) != (ListedId(pos) in invert)
  }

  /** All bits of `data`, the listed ones inverted. */
  function Bits(data: seq<byte>, invert: set<nat>): (states: seq<bool>)
    ensures |states| == 8 * |data|
    ensures forall i :: 0 <= i < |states| ==> states[i] == StateBit(data, i, invert)
  {
    seq(8 * |data|, i requires 0 <= i < 8 * |data| => StateBit(data, i, invert))
  }

  /** The bytes that are looked at: `data.iter().take(4)` for partitions. */
  function Used(layout: Layout, data: seq<byte>): seq<byte>
  {
    if layout.only.Some? && layout.only.value < |data| then data[..layout.only.value] else data
  }

  /** The states a frame carries; nothing for a foreign or short frame. */
  function ParseStates(frame: seq<byte>, invert: set<nat>): (parsed: Option<seq<bool>>)
    ensures parsed.Some? <==>
      frame != [] && LayoutOf(frame[0]).Some? && |frame| - 1 >= LayoutOf(frame[0]).value.minBytes
    ensures parsed.Some? ==>
      var layout := LayoutOf(frame[0]).value;
      && |parsed.value| == 8 * (if layout.only.Some? && layout.only.value < |frame| - 1
                                then layout.only.value else |frame| - 1)
      && forall i :: 0 <= i < |parsed.value| ==>
           (parsed.value[i] <==> Bit(frame[1 + i / 8], i % 8) != (layout.invertible && ListedId(i) in invert))
  {
    if frame == [] || LayoutOf(frame[0]).None? then None
    else
      var layout, data := LayoutOf(frame[0]).value, frame[1..];
      if |data| < layout.minBytes then None
      else
        Some(Bits(Used(layout, data), if layout.invertible then invert else {}))
  }

  /** Main result, in numbers: zone commands 00 to 08 and the output command 17 carry one bit for each of
  at least 128 items, the seven partition commands 32 bits, lowest bit of the first byte first; zone bits,
  and no others, are inverted for the zones listed. Other commands, and shorter frames, carry nothing. */
  lemma StateFramesAre(frame: seq<byte>, invert: set<nat>)
    ensures var parsed := ParseStates(frame, invert);
      var isZone := frame != [] && frame[0] <= 0x08;
      var isPartition := frame != [] && frame[0] in {0x09, 0x0A, 0x0E, 0x0F, 0x10, 0x13, 0x15};
      var isOutput := frame != [] && frame[0] == 0x17;
      if ((isZone || isOutput) && |frame| >= 17) || (isPartition && |frame| >= 5) then
        && parsed.Some?
        && |parsed.value| == (if isPartition then 32 else 8 * (|frame| - 1))
        && forall i :: 0 <= i < |parsed.value| ==>
             (parsed.value[i] <==> Bit(frame[1 + i / 8], i % 8) != (isZone && (i + 1) % 65536 in invert))
      else parsed.None?
  {
    hide Bit, ParseStates;
  }

  /** The nested loops over bytes and bits. */
  method ParseBitStates(data: seq<byte>, invert: set<nat>) returns (states: seq<bool>)
    ensures states == Bits(data, invert)
  {
    states := [];
    for byteIdx := 0 to |data|
      invariant |states| == 8 * byteIdx
      invariant forall i :: 0 <= i < |states| ==> states[i] == StateBit(data, i, invert)
    {
      for bit := 0 to 8
        invariant |states| == 8 * byteIdx + bit
        invariant forall i :: 0 <= i < |states| ==> states[i] == StateBit(data, i, invert)
      {
        var pos := byteIdx * 8 + bit;
        assert pos / 8 == byteIdx && pos % 8 == bit;
        var zoneId := ListedId(pos);
        var rawState := Bit(data[byteIdx], bit);
        var finalState := if zoneId in invert then !rawState else rawState;
        states := states + [finalState];
      }
    }
  }

  // ---------- Cache and events ----------

  datatype Cell = Cell(value: bool, readAt: Option<nat>)

  const UNREAD := Cell(false, None)

  datatype Event = Event(cmd: byte, id: nat, state: bool)

  /** A frame that reaches the cache, the zone numbers inverted then, and whether it is announced
  in full; the switch for unchanged items is read anew for every item. */
  datatype Delivery = Delivery(frame: seq<byte>, invert: set<nat>, now: nat,
                               emitAll: bool, emitUnchanged: nat -> bool)

  datatype Cache = Cache(cells: map<byte, seq<Cell>>, events: seq<Event>)

  /** One cell for every item a state command numbers. */
  predicate Shaped(cells: map<byte, seq<Cell>>)
  {
    && (forall cmd: byte :: cmd in cells <==> LayoutOf(cmd).Some?)
    && (forall cmd: byte :: cmd in cells ==> |cells[cmd]| == LayoutOf(cmd).value.capacity)
  }

  predicate Emits(cell: Cell, state: bool, i: nat, d: Delivery)
  {
    d.emitAll || cell.readAt.None? || cell.value != state || d.emitUnchanged(i)
  }

  /** The update loop after its first `k` positions: the cells and the events sent. */
  function Update(cells: seq<Cell>, states: seq<bool>, d: Delivery, cmd: byte, k: nat): (u: (seq<Cell>, seq<Event>))
    requires k <= |cells| && k <= |states|
    ensures |u.0| == |cells|
    ensures forall i :: k <= i < |cells| ==> u.0[i] == cells[i]
  {
    if k == 0 then (cells, [])
    else
      var (done, events) := Update(cells, states, d, cmd, k - 1);
      var i := k - 1;
      if Emits(cells[i], states[i], i, d)
      then (done[i := Cell(states[i], Some(d.now))], events + [Event(cmd, i + 1, states[i])])
      else (done, events)
  }

  function Deliver(c: Cache, d: Delivery): (r: Cache)
    requires Shaped(c.cells)
    ensures Shaped(r.cells)
  {
    match ParseStates(d.frame, d.invert)
    case None => c
    case Some(states) =>
      var cmd := d.frame[0];
      var cells := c.cells[cmd];
      var (updated, events) := Update(cells, states, d, cmd, Min(|cells|, |states|));
      Cache(c.cells[cmd := updated], c.events + events)
  }

  /** `SatelState::new`: item numbers run from 1, nothing read yet. */
  function NewCells(): (cells: map<byte, seq<Cell>>)
    ensures Shaped(cells)
    ensures forall cmd :: cmd in cells ==> forall i :: 0 <= i < |cells[cmd]| ==> cells[cmd][i] == UNREAD
  {
    map cmd: byte | LayoutOf(cmd).Some? :: seq(LayoutOf(cmd).value.capacity, i => UNREAD)
  }

  /** The cache has 256 zones and outputs and 32 partitions. */
  lemma CacheSizes(cmd: byte)
    ensures cmd in NewCells() <==> cmd <= 0x0A || cmd in {0x0E, 0x0F, 0x10, 0x13, 0x15, 0x17}
    ensures cmd in NewCells() ==> |NewCells()[cmd]| == if cmd <= 0x08 || cmd == 0x17 then 256 else 32
  {
  }

  class SatelCache {
    var cells: map<byte, seq<Cell>>
    var events: seq<Event>

    constructor ()
      ensures cells == NewCells() && events == []
    {
      cells, events := NewCells(), [];
    }

    /** Parse a frame, then loop over its bits, writing cells and sending events. */
    method HandleFrame(d: Delivery) returns (ok: bool)
      requires Shaped(cells)
      modifies this
      ensures ok <==> ParseStates(d.frame, d.invert).Some?
      ensures Cache(cells, events) == Deliver(old(Cache(cells, events)), d)
    {
      if d.frame == [] || LayoutOf(d.frame[0]).None? {
        return false;
      }
      var cmd := d.frame[0];
      var layout, data := LayoutOf(cmd).value, d.frame[1..];
      if |data| < layout.minBytes {
        return false;
      }
      var states := ParseBitStates(Used(layout, data),
                                   if layout.invertible then d.invert else {});
      UpdateCells(cmd, states, d);
      return true;
    }

    method UpdateCells(cmd: byte, states: seq<bool>, d: Delivery)
      requires cmd in cells
      modifies this
      ensures var n := Min(|old(cells)[cmd]|, |states|);
        var u := Update(old(cells)[cmd], states, d, cmd, n);
        cells == old(cells)[cmd := u.0] && events == old(events) + u.1
    {
      ghost var before := cells[cmd];
      var i := 0;
      while i < |states|
        invariant 0 <= i <= |states|
        invariant var u := Update(before, states, d, cmd, Min(|before|, i));
          cells == old(cells)[cmd := u.0] && events == old(events) + u.1
      {
        if i < |cells[cmd]| {
          var cell, newState := cells[cmd][i], states[i];
          var isInitial, changed := cell.readAt.None?, cell.value != newState;
          if d.emitAll || isInitial || changed || d.emitUnchanged(i) {
            cells := cells[cmd := cells[cmd][i := Cell(newState, Some(d.now))]];
            events := events + [Event(cmd, i + 1, newState)];
          }
        }
        i := i + 1;
      }
    }
  }

  // ---------- A subscriber replays the events ----------

  type view = map<(byte, nat), bool>

  function Follow(v: view, events: seq<Event>): view
  {
    if events == [] then v
    else
      var e := events[|events| - 1];
      Follow(v, events[..|events| - 1])[(e.cmd, e.id) := e.state]
  }

  predicate IsRead(cells: map<byte, seq<Cell>>, cmd: byte, id: nat)
  {
    cmd in cells && 1 <= id <= |cells[cmd]| && cells[cmd][id - 1].readAt.Some?
  }

  /** The subscriber knows exactly the items ever read, with their cached values. */
  ghost predicate Mirrors(v: view, cells: map<byte, seq<Cell>>)
  {
    forall cmd: byte, id: nat ::
      && ((cmd, id) in v <==> IsRead(cells, cmd, id))
      && (IsRead(cells, cmd, id) ==> v[(cmd, id)] == cells[cmd][id - 1].value)
  }

  lemma FollowAppend(v: view, events: seq<Event>, e: Event)
    ensures Follow(v, events + [e]) == Follow(v, events)[(e.cmd, e.id) := e.state]
  {
    assert (events + [e])[..|events|] == events;
  }

  lemma {:induction false} FollowConcat(v: view, a: seq<Event>, b: seq<Event>)
    ensures Follow(v, a + b) == Follow(Follow(v, a), b)
    decreases |b|
  {
    if b == [] {
      assert a + b == a;
    } else {
      var n := |b| - 1;
      assert a + b == (a + b[..n]) + [b[n]];
      FollowAppend(v, a + b[..n], b[n]);
      FollowConcat(v, a, b[..n]);
    }
  }

  lemma {:induction false} UpdateMirrored(v: view, all: map<byte, seq<Cell>>, states: seq<bool>, d: Delivery,
                                          cmd: byte, k: nat)
    requires cmd in all && k <= |all[cmd]| && k <= |states| && Mirrors(v, all)
    ensures var u := Update(all[cmd], states, d, cmd, k);
      Mirrors(Follow(v, u.1), all[cmd := u.0])
    decreases k
  {
    if k == 0 {
      assert all[cmd := all[cmd]] == all;
    } else {
      UpdateMirrored(v, all, states, d, cmd, k - 1);
      var (done, events) := Update(all[cmd], states, d, cmd, k - 1);
      if Emits(all[cmd][k - 1], states[k - 1], k - 1, d) {
        var e := Event(cmd, k, states[k - 1]);
        FollowAppend(v, events, e);
        MirrorStep(Follow(v, events), all[cmd := done], cmd, k, Cell(states[k - 1], Some(d.now)));
        var cells := done[k - 1 := Cell(states[k - 1], Some(d.now))];
        assert all[cmd := done][cmd := cells] == all[cmd := cells];
      }
    }
  }

  /** Writing one cell and announcing it keeps subscriber and cache together. */
  lemma MirrorStep(v: view, all: map<byte, seq<Cell>>, cmd: byte, id: nat, cell: Cell)
    requires cmd in all && 1 <= id <= |all[cmd]| && cell.readAt.Some? && Mirrors(v, all)
    ensures Mirrors(v[(cmd, id) := cell.value], all[cmd := all[cmd][id - 1 := cell]])
  {
  }

  lemma DeliverMirrored(c: Cache, d: Delivery, v: view)
    requires Shaped(c.cells) && Mirrors(Follow(v, c.events), c.cells)
    ensures Mirrors(Follow(v, Deliver(c, d).events), Deliver(c, d).cells)
  {
    hide Update, ParseStates, Mirrors, Follow;
    match ParseStates(d.frame, d.invert)
    case None =>
    case Some(states) =>
      var cmd := d.frame[0];
      var n := Min(|c.cells[cmd]|, |states|);
      UpdateMirrored(Follow(v, c.events), c.cells, states, d, cmd, n);
      FollowConcat(v, c.events, Update(c.cells[cmd], states, d, cmd, n).1);
  }

  function DeliverAll(ds: seq<Delivery>): (c: Cache)
    ensures Shaped(c.cells)
  {
    if ds == [] then Cache(NewCells(), []) else Deliver(DeliverAll(ds[..|ds| - 1]), ds[|ds| - 1])
  }

  /** Main result, over every sequence of frames of all kinds, lengths and settings: a subscriber
  that starts knowing nothing and follows the events always agrees with the cache. */
  lemma {:induction false} EventsReplayToCache(ds: seq<Delivery>)
    ensures Mirrors(Follow(map[], DeliverAll(ds).events), DeliverAll(ds).cells)
  {
    if ds == [] {
      assert Follow(map[], []) == map[];
    } else {
      EventsReplayToCache(ds[..|ds| - 1]);
      DeliverMirrored(DeliverAll(ds[..|ds| - 1]), ds[|ds| - 1], map[]);
    }
  }

  // ---------- The cache agrees with the latest frames ----------

  /** The bit last received for an item, inverted as configured at the time. */
  function LastState(ds: seq<Delivery>, cmd: byte, pos: nat): Option<bool>
  {
    if ds == [] then None
    else
      var n := |ds| - 1;
      match ParseStates(ds[n].frame, ds[n].invert)
      case Some(states) =>
        if ds[n].frame[0] == cmd && pos < |states| then Some(states[pos]) else LastState(ds[..n], cmd, pos)
      case None => LastState(ds[..n], cmd, pos)
  }

  lemma {:induction false} UpdateStores(cells: seq<Cell>, states: seq<bool>, d: Delivery, cmd: byte, k: nat)
    requires k <= |cells| && k <= |states|
    ensures forall i :: 0 <= i < k ==>
      var cell := Update(cells, states, d, cmd, k).0[i];
      cell.value == states[i] && cell.readAt.Some?
    decreases k
  {
    if k > 0 {
      UpdateStores(cells, states, d, cmd, k - 1);
    }
  }

  /** Main result: every cached item holds the bit of the latest accepted frame of its command that
  covers it, and is unread exactly if there was none. */
  lemma {:induction false} CacheHoldsLatest(ds: seq<Delivery>, cmd: byte, pos: nat)
    requires LayoutOf(cmd).Some? && pos < LayoutOf(cmd).value.capacity
    ensures var cell := DeliverAll(ds).cells[cmd][pos];
      match LastState(ds, cmd, pos)
      case None => cell == UNREAD
      case Some(state) => cell.value == state && cell.readAt.Some?
  {
    if ds != [] {
      var n := |ds| - 1;
      CacheHoldsLatest(ds[..n], cmd, pos);
      StoresLatest(DeliverAll(ds[..n]), ds[n], cmd, pos);
    }
  }

  lemma StoresLatest(c: Cache, d: Delivery, cmd: byte, pos: nat)
    requires Shaped(c.cells) && LayoutOf(cmd).Some? && pos < LayoutOf(cmd).value.capacity
    ensures var cell, parsed := Deliver(c, d).cells[cmd][pos], ParseStates(d.frame, d.invert);
      if parsed.Some? && d.frame[0] == cmd && pos < |parsed.value|
      then cell.value == parsed.value[pos] && cell.readAt.Some?
      else cell == c.cells[cmd][pos]
  {
    hide ParseStates, Update;
    var parsed := ParseStates(d.frame, d.invert);
    if parsed.Some? && d.frame[0] == cmd {
      UpdateStores(c.cells[cmd], parsed.value, d, cmd, Min(|c.cells[cmd]|, |parsed.value|));
    }
  }

  // ---------- Which items a frame announces ----------

  predicate Announces(events: seq<Event>, id: nat) { exists j :: 0 <= j < |events| && events[j].id == id }

  /** Numbers ascend, so no item is announced twice. */
  predicate Ascending(events: seq<Event>) { forall i, j :: 0 <= i < j < |events| ==> events[i].id < events[j].id }

  lemma NotAnnounced(events: seq<Event>, id: nat)
    requires forall j :: 0 <= j < |events| ==> events[j].id < id
    ensures !Announces(events, id)
  {
  }

  lemma NothingAnnounced()
    ensures forall id: nat :: !Announces([], id)
  {
  }

  /** Main result: a frame announces, once each and with the new state, exactly the items it covers
  that have changed, were never read, or are announced by configuration. */
  lemma {:induction false} AnnouncesExactly(cells: seq<Cell>, states: seq<bool>, d: Delivery, cmd: byte, k: nat)
    requires k <= |cells| && k <= |states|
    ensures var events := Update(cells, states, d, cmd, k).1;
      && Ascending(events)
      && (forall j :: 0 <= j < |events| ==>
            1 <= events[j].id <= k && events[j].cmd == cmd && events[j].state == states[events[j].id - 1])
      && (forall i :: 0 <= i < k ==>
            (Announces(events, i + 1) <==>
               d.emitAll || cells[i].readAt.None? || cells[i].value != states[i] || d.emitUnchanged(i)))
    decreases k
  {
    hide Announces;
    NothingAnnounced();
    if k > 0 {
      AnnouncesExactly(cells, states, d, cmd, k - 1);
      var before, events := Update(cells, states, d, cmd, k - 1).1, Update(cells, states, d, cmd, k).1;
      if Emits(cells[k - 1], states[k - 1], k - 1, d) {
        forall id: nat ensures Announces(events, id) <==> Announces(before, id) || id == k {
          AnnouncesAppend(before, Event(cmd, k, states[k - 1]), id);
        }
      } else {
        NotAnnounced(before, k);
      }
    }
  }

  /** A cell is written exactly if its item is announced, with the new state and the time of the frame. */
  lemma WritesExactly(cells: seq<Cell>, states: seq<bool>, d: Delivery, cmd: byte, k: nat, i: nat)
    requires k <= |cells| && k <= |states| && i < |cells|
    ensures var (done, events) := Update(cells, states, d, cmd, k);
      done[i] == if i < k && Announces(events, i + 1) then Cell(states[i], Some(d.now)) else cells[i]
  {
    hide Update, Announces;
    AnnouncesExactly(cells, states, d, cmd, k);
    WritesEmitted(cells, states, d, cmd, k, i);
  }

  lemma {:induction false} WritesEmitted(cells: seq<Cell>, states: seq<bool>, d: Delivery, cmd: byte, k: nat, i: nat)
    requires k <= |cells| && k <= |states| && i < |cells|
    ensures Update(cells, states, d, cmd, k).0[i] ==
      if i < k && Emits(cells[i], states[i], i, d) then Cell(states[i], Some(d.now)) else cells[i]
    decreases k
  {
    hide Emits;
    if k > 0 {
      WritesEmitted(cells, states, d, cmd, k - 1, i);
    }
  }

  /** In plain mode, neither in full nor with unchanged items: the numbers announced are exactly
  those of the items never read or cached with the other state. */
  lemma PlainAnnouncements(cells: seq<Cell>, states: seq<bool>, d: Delivery, cmd: byte, id: nat)
    requires !d.emitAll && forall i :: !d.emitUnchanged(i)
    ensures var n := Min(|cells|, |states|);
      Announces(Update(cells, states, d, cmd, n).1, id) <==>
        1 <= id <= n && (cells[id - 1].readAt.None? || cells[id - 1].value != states[id - 1])
  {
    hide Update;
    var n := Min(|cells|, |states|);
    AnnouncesExactly(cells, states, d, cmd, n);
    if 1 <= id <= n {
      assert Announces(Update(cells, states, d, cmd, n).1, (id - 1) + 1) <==>
        cells[id - 1].readAt.None? || cells[id - 1].value != states[id - 1];
    }
  }

  lemma AnnouncesAppend(events: seq<Event>, e: Event, id: nat)
    ensures Announces(events + [e], id) <==> Announces(events, id) || id == e.id
  {
    var more := events + [e];
    if Announces(events, id) {
      var j :| 0 <= j < |events| && events[j].id == id;
      assert more[j].id == id;
    }
    assert more[|events|] == e;
  }
}
