/** The push mask against the client's handling of pushed frames: what the panel can be asked to
push is what the client takes in. */
module MaskCoverage {
  import opened Bytes
  import opened PushMask
  import opened StateCache
  import opened TroubleTables

  /** Where a pushed frame goes, by its first byte. */
  datatype Route = StateUpdate | StatusUpdate | TroubleUpdate | PanelMessage | Ignored

  function RouteOf(cmd: byte): Route
  {
    match cmd
    case 0x00 => StateUpdate
    case 0x01 => StateUpdate
    case 0x02 => StateUpdate
    case 0x03 => StateUpdate
    case 0x04 => StateUpdate
    case 0x05 => StateUpdate
    case 0x06 => StateUpdate
    case 0x07 => StateUpdate
    case 0x08 => StateUpdate
    case 0x09 => StateUpdate
    case 0x0A => StateUpdate
    case 0x13 => StateUpdate
    case 0x0E => StateUpdate
    case 0x0F => StateUpdate
    case 0x10 => StateUpdate
    case 0x15 => StateUpdate
    case 0x17 => StateUpdate
    case 0x1A => StatusUpdate
    case 0xEF => PanelMessage
    case _ =>
      if 0x1B <= cmd <= 0x1F || cmd == 0x2C || cmd == 0x2D || cmd == 0x30
         || 0x20 <= cmd <= 0x24 || cmd == 0x2E || cmd == 0x2F || cmd == 0x31
      then TroubleUpdate else Ignored
  }

  /** Frames routed to a decoder are frames it knows, and the other way round. */
  lemma RoutesAreDecoded(cmd: byte)
    ensures RouteOf(cmd) == StateUpdate <==> LayoutOf(cmd).Some?
    ensures RouteOf(cmd) == TroubleUpdate <==> GetRules(cmd).Some?
  {
    hide RouteOf, LayoutOf, GetRules;
    StateRoutes(cmd);
    TroubleRoutes(cmd);
  }

  lemma StateRoutes(cmd: byte)
    ensures RouteOf(cmd) == StateUpdate <==> LayoutOf(cmd).Some?
  {
  }

  lemma TroubleRoutes(cmd: byte)
    ensures RouteOf(cmd) == TroubleUpdate <==> GetRules(cmd).Some?
  {
    hide Part1, Part2State, Part2Memory, Part3State, Part3Memory, Part4, Part5State, Part6, Part7State, Part8,
      ZoneMemory, Inside;
  }

  /** A pushed frame of this command changes what the client has cached. */
  predicate IsTakenIn(cmd: byte)
  {
    RouteOf(cmd) != Ignored && RouteOf(cmd) != PanelMessage
  }

  const ALL_ON := AutoRead(true, true, true, true, true, true, true, true, true,
                           true, true, true, true, true, true, true, true, true)

  lemma SelectedIsTakenIn(c: AutoRead, cmd: byte)
    ensures Selected(c, cmd) ==> IsTakenIn(cmd)
    ensures IsTakenIn(cmd) ==> Selected(ALL_ON, cmd)
  {
  }

  /** Whatever the settings, the mask asks only for commands whose frames are taken in; and it asks
  for every one of them when all settings are on. */
  lemma MaskAsksForDecoded(c: AutoRead, support14: bool, cmd: nat)
    requires cmd < 8 * |BuildPushMask(c, support14)|
    ensures BitAt(BuildPushMask(c, support14), cmd) ==> IsTakenIn(cmd)
    ensures IsTakenIn(cmd) ==> BitAt(BuildPushMask(ALL_ON, support14), cmd)
  {
    hide Selected, BuildPushMask, IsTakenIn;
    SelectedIsTakenIn(c, cmd);
    MaskAsksExactly(c, support14, cmd);
    MaskAsksExactly(ALL_ON, support14, cmd);
  }
}
