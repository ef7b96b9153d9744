/** The network half of the client in src/whiteshoe/client.py
    (`ClientNetwork`): the remembered world rebuilt from vision packets,
    the search for the player's own cell, the game-status handler and the
    keepalive reset, plus the two screen layouts of `GameScene`. */
module Client {
  import opened Wrappers
  import opened Constants
  import opened Grid
  import opened Entities
  import opened Wire

  /** An object as the client stores it: the decoded constant and the attributes. */
  datatype CObj = CObj(kind: Const, attrs: Attrs)

  /** `ClientNetwork.known_world`. */
  type ClientKnown = map<Coord, seq<CObj>>

  // ---- decoding a vision packet ----

  /** Unpacking of the whole attribute table, done before any record is read;
      None where one attribute fails to unpack. */
  function UnpackAll(ats: seq<Attribute>): (r: Option<seq<Attrs>>)
    ensures r.Some? <==> forall j :: 0 <= j < |ats| ==> UnpackAttribute(ats[j]).Some?
    ensures r.Some? ==> |r.value| == |ats| && forall j :: 0 <= j < |ats| ==> UnpackAttribute(ats[j]) == Some(r.value[j])
  {
    if forall j :: 0 <= j < |ats| ==> UnpackAttribute(ats[j]).Some?
    then Some(seq(|ats|, j requires 0 <= j < |ats| => UnpackAttribute(ats[j]).value))
    else None
  }

  /** Python list indexing: negative indices count from the end; None where it
      raises IndexError. */
  function PyIndex<T>(s: seq<T>, i: int): (r: Option<T>)
    ensures 0 <= i < |s| ==> r == Some(s[i])
    ensures r.Some? <==> -|s| <= i < |s|
  {
    if 0 <= i < |s| then Some(s[i])
    else if -|s| <= i < 0 then Some(s[|s| + i])
    else None
  }

  /** The record loop of `_vision_update`, from a point where the cells of
      `cleared` have already been reset in this packet: each 4-tuple resets its
      cell on the cell's first record, then appends the decoded object unless
      the kind is -1. The result is the remembered world, the cleared cells, and
      whether the loop ran to the end (false where it raises: a trailing partial
      tuple, a bad attribute index, a kind code outside the table). */
  function Run(kw: ClientKnown, cleared: set<Coord>, objs: seq<int>, u: seq<Attrs>)
    : (r: (ClientKnown, set<Coord>, bool))
    requires cleared <= kw.Keys
    ensures cleared <= r.1 <= r.0.Keys
    decreases |objs|
  {
    if objs == [] then (kw, cleared, true)
    else if |objs| < 4 then (kw, cleared, false)
    else
      var c := (objs[0], objs[1]);
      var attr := if objs[3] == -1 then Some(map[]) else PyIndex(u, objs[3]);
      if attr.None? then (kw, cleared, false)
      else
        var kw1 := if c in cleared then kw else kw[c := []];
        var cl1 := cleared + {c};
        if objs[2] == -1 then Run(kw1, cl1, objs[4..], u)
        else
          match FromNumerical(objs[2])
          case None => (kw1, cl1, false)
          case Some(k) => Run(kw1[c := kw1[c] + [CObj(k, attr.value)]], cl1, objs[4..], u)
  }

  /** One record of the loop, taken from the front. */
  lemma RunStep(kw: ClientKnown, cleared: set<Coord>, objs: seq<int>, u: seq<Attrs>)
    requires cleared <= kw.Keys && |objs| >= 4
    ensures var c := (objs[0], objs[1]);
      var attr := if objs[3] == -1 then Some(map[]) else PyIndex(u, objs[3]);
      var kw1 := if c in cleared then kw else kw[c := []];
      Run(kw, cleared, objs, u) ==
        if attr.None? then (kw, cleared, false)
        else if objs[2] == -1 then Run(kw1, cleared + {c}, objs[4..], u)
        else if FromNumerical(objs[2]).None? then (kw1, cleared + {c}, false)
        else Run(kw1[c := kw1[c] + [CObj(FromNumerical(objs[2]).value, attr.value)]], cleared + {c}, objs[4..], u)
  {
  }

  /** `_vision_update(packet)`: the remembered world after the packet, and
      whether the handler returns normally. `clear_all` is not read. */
  function DecodeVision(kw: ClientKnown, p: Packet): (ClientKnown, bool)
  {
    match UnpackAll(p.attributes)
    case None => (kw, false)
    case Some(u) =>
      var r := Run(kw, {}, p.objects, u);
      (r.0, r.2)
  }

  /** A cell that no record of the packet names keeps what it held. */
  lemma {:induction false} RunLeavesOthers(kw: ClientKnown, cleared: set<Coord>, objs: seq<int>, u: seq<Attrs>, c: Coord)
    requires cleared <= kw.Keys
    requires forall i :: 0 <= i < |objs| / 4 ==> (objs[4 * i], objs[4 * i + 1]) != c
    ensures var r := Run(kw, cleared, objs, u);
      (c in r.0 <==> c in kw) && (c in kw ==> r.0[c] == kw[c]) && (c in r.1 <==> c in cleared)
    decreases |objs|
  {
    if |objs| >= 4 {
      forall i | 0 <= i < |objs[4..]| / 4
        ensures (objs[4..][4 * i], objs[4..][4 * i + 1]) != c
      {
        assert (objs[4 * (i + 1)], objs[4 * (i + 1) + 1]) != c;
      }
      assert (objs[0], objs[1]) != c by {
        assert (objs[4 * 0], objs[4 * 0 + 1]) != c;
      }
      var d := (objs[0], objs[1]);
      var attr := if objs[3] == -1 then Some(map[]) else PyIndex(u, objs[3]);
      if attr.Some? {
        var kw1 := if d in cleared then kw else kw[d := []];
        if objs[2] == -1 {
          RunLeavesOthers(kw1, cleared + {d}, objs[4..], u, c);
        } else if FromNumerical(objs[2]).Some? {
          var k := FromNumerical(objs[2]).value;
          RunLeavesOthers(kw1[d := kw1[d] + [CObj(k, attr.value)]], cleared + {d}, objs[4..], u, c);
        }
      }
    }
  }

  // ---- finding the player's own cell ----

  /** The outcome of `find_me`: the cell and object found, `PlayerNotFound`, or
      the KeyError raised by a player object without a `number` attribute. */
  datatype Lookup = Found(c: Coord, o: CObj) | NotFound | NoNumber

  datatype CellLookup = Hit(o: CObj) | Miss | Unnumbered

  /** The scan of one cell's objects for the player object numbered `pid`. */
  function FindInCell(objs: seq<CObj>, pid: int): CellLookup
    decreases |objs|
  {
    if objs == [] then Miss
    else
      var o := objs[0];
      if o.kind == KindC(Player) then
        if "number" !in o.attrs then Unnumbered
        else if o.attrs["number"] == IntV(pid) then Hit(o)
        else FindInCell(objs[1..], pid)
      else FindInCell(objs[1..], pid)
  }

  /** The scan over the remembered cells, in the dict's iteration order. */
  function FindInCells(kw: ClientKnown, order: seq<Coord>, pid: int): Lookup
    requires forall c :: c in order ==> c in kw
    decreases |order|
  {
    if order == [] then NotFound
    else
      match FindInCell(kw[order[0]], pid)
      case Hit(o) => Found(order[0], o)
      case Unnumbered => NoNumber
      case Miss => FindInCells(kw, order[1..], pid)
  }

  /** `find_me`. */
  function FindMeIn(kw: ClientKnown, order: seq<Coord>, playerId: Option<int>): Lookup
    requires forall c :: c in order ==> c in kw
  {
    if playerId.None? then NotFound else FindInCells(kw, order, playerId.value)
  }

  /** The object is the player object numbered `pid`. */
  predicate IsMe(o: CObj, pid: int)
  {
    o.kind == KindC(Player) && "number" in o.attrs && o.attrs["number"] == IntV(pid)
  }

  /** Every remembered player object carries a `number`. */
  predicate Numbered(kw: ClientKnown)
  {
    forall c, o :: c in kw && o in kw[c] && o.kind == KindC(Player) ==> "number" in o.attrs
  }

  lemma {:induction false} FindInCellSpec(objs: seq<CObj>, pid: int)
    ensures FindInCell(objs, pid).Hit? ==> FindInCell(objs, pid).o in objs && IsMe(FindInCell(objs, pid).o, pid)
    ensures FindInCell(objs, pid).Miss? ==> forall o :: o in objs ==> !IsMe(o, pid)
    ensures FindInCell(objs, pid).Unnumbered? ==> exists o :: o in objs && o.kind == KindC(Player) && "number" !in o.attrs
    ensures (forall o :: o in objs && o.kind == KindC(Player) ==> "number" in o.attrs) ==> !FindInCell(objs, pid).Unnumbered?
    decreases |objs|
  {
    if objs != [] {
      FindInCellSpec(objs[1..], pid);
      assert forall o :: o in objs ==> o == objs[0] || o in objs[1..];
      if FindInCell(objs, pid).Unnumbered? && FindInCell(objs[1..], pid).Unnumbered? {
        var o :| o in objs[1..] && o.kind == KindC(Player) && "number" !in o.attrs;
        assert o in objs;
      }
    }
  }

  /** What `find_me` returns is the player's own object in its cell; it reports
      `PlayerNotFound` only when no remembered object is the player (or the
      player id is unknown); with every player object numbered it never raises
      KeyError. */
  lemma {:induction false} FindInCellsSpec(kw: ClientKnown, order: seq<Coord>, pid: int)
    requires forall c :: c in order ==> c in kw
    ensures FindInCells(kw, order, pid).Found? ==>
      var r := FindInCells(kw, order, pid); r.c in order && r.o in kw[r.c] && IsMe(r.o, pid)
    ensures FindInCells(kw, order, pid).NotFound? ==> forall c, o :: c in order && o in kw[c] ==> !IsMe(o, pid)
    ensures Numbered(kw) ==> !FindInCells(kw, order, pid).NoNumber?
    decreases |order|
  {
    if order != [] {
      FindInCellSpec(kw[order[0]], pid);
      FindInCellsSpec(kw, order[1..], pid);
      assert forall c :: c in order ==> c == order[0] || c in order[1..];
    }
  }

  /** `find_me` over every remembered cell, in any iteration order. */
  lemma FindMeSpec(kw: ClientKnown, order: seq<Coord>, playerId: Option<int>)
    requires Elems(order) == kw.Keys
    ensures FindMeIn(kw, order, playerId).Found? ==>
      var r := FindMeIn(kw, order, playerId); playerId.Some? && r.c in kw && r.o in kw[r.c] && IsMe(r.o, playerId.value)
    ensures FindMeIn(kw, order, playerId).NotFound? <==>
      playerId.None? ||
      ((forall c, o :: c in kw && o in kw[c] ==> !IsMe(o, playerId.value)) && !FindMeIn(kw, order, playerId).NoNumber?)
    ensures Numbered(kw) ==> !FindMeIn(kw, order, playerId).NoNumber?
  {
    if playerId.Some? {
      FindInCellsSpec(kw, order, playerId.value);
      var r := FindMeIn(kw, order, playerId);
      assert forall c :: c in kw ==> c in order;
      if r.Found? {
        assert r.c in order && IsMe(r.o, playerId.value);
      }
    }
  }

  // ---- screen layout of GameScene ----

  /** A curses window: (lines, cols, top, left), as `subwin` takes it. */
  datatype Window = Window(lines: int, cols: int, top: int, left: int)

  /** The two windows split a `maxY` x `maxX` screen without overlap and cover it:
      side by side or one above the other. */
  predicate Tiles(maxY: int, maxX: int, a: Window, b: Window)
  {
    a.top == 0 && a.left == 0 &&
    ((a.lines == maxY && b.lines == maxY && b.top == 0 && b.left == a.cols && a.cols + b.cols == maxX) ||
     (a.cols == maxX && b.cols == maxX && b.left == 0 && b.top == a.lines && a.lines + b.lines == maxY))
  }

  /** `_vertical_infobar`: a 20-column bar to the right of the viewport. */
  function VerticalInfobar(maxY: int, maxX: int): (r: (Window, Window))
    ensures Tiles(maxY, maxX, r.0, r.1) && r.1.cols == 20 && r.1.lines == maxY
  {
    (Window(maxY, maxX - 20, 0, 0), Window(maxY, 20, 0, maxX - 20))
  }

  /** `_horizontal_infobar`: a 2-line bar under the viewport. */
  function HorizontalInfobar(maxY: int, maxX: int): (r: (Window, Window))
    ensures Tiles(maxY, maxX, r.0, r.1) && r.1.lines == 2 && r.1.cols == maxX
  {
    (Window(maxY - 2, maxX, 0, 0), Window(2, maxX, maxY - 2, 0))
  }

  // ---- the client's network state ----

  class ClientNetwork {
    var knownWorld: ClientKnown
    var gameId: Option<int>
    var playerId: Option<int>
    var vision: Option<string>
    /** Seconds since the last packet was sent. */
    var keepaliveTimer: int
    /** The number of datagrams handed to the socket. */
    var sent: nat

    /** The state `__init__` leaves (the join request it sends is not modelled). */
    constructor ()
      ensures knownWorld == map[] && gameId.None? && playerId.None? && vision.None?
      ensures keepaliveTimer == 0 && sent == 0
    {
      knownWorld := map[];
      gameId := None;
      playerId := None;
      vision := None;
      keepaliveTimer := 0;
      sent := 0;
    }

    /** `_send_packets`: every packet goes out, and the keepalive timer restarts. */
    method SendPackets(count: nat)
      modifies this
      ensures sent == old(sent) + count && keepaliveTimer == 0
      ensures knownWorld == old(knownWorld) && gameId == old(gameId)
      ensures playerId == old(playerId) && vision == old(vision)
    {
      var i := 0;
      while i < count
        invariant 0 <= i <= count && sent == old(sent) + i
        invariant knownWorld == old(knownWorld) && gameId == old(gameId)
        invariant playerId == old(playerId) && vision == old(vision)
      {
        sent := sent + 1;
        i := i + 1;
      }
      keepaliveTimer := 0;
    }

    /** `_game_status`: a JOINED status records the game, the player id and the
        vision mode; a LEFT status forgets the game; any other status changes nothing. */
    method GameStatus(status: int, statusGameId: int, yourPlayerId: int, gameVision: string)
      modifies this
      ensures status == StatusJoined ==>
        gameId == Some(statusGameId) && playerId == Some(yourPlayerId) && vision == Some(gameVision)
      ensures status == StatusLeft ==>
        gameId.None? && playerId == old(playerId) && vision == old(vision)
      ensures status != StatusJoined && status != StatusLeft ==>
        gameId == old(gameId) && playerId == old(playerId) && vision == old(vision)
      ensures knownWorld == old(knownWorld) && keepaliveTimer == old(keepaliveTimer) && sent == old(sent)
    {
      if status == StatusJoined {
        gameId := Some(statusGameId);
        playerId := Some(yourPlayerId);
        vision := Some(gameVision);
      } else if status == StatusLeft {
        gameId := None;
      }
    }

    /** `find_me`, scanning the remembered cells in `order`, the dict's iteration order. */
    method FindMe(order: seq<Coord>) returns (r: Lookup)
      requires Elems(order) == knownWorld.Keys
      ensures r == FindMeIn(knownWorld, order, playerId)
    {
      if playerId.None? {
        return NotFound;
      }
      var pid := playerId.value;
      var i := 0;
      while i < |order|
        invariant 0 <= i <= |order|
        invariant FindInCells(knownWorld, order[i..], pid) == FindInCells(knownWorld, order, pid)
      {
        assert order[i..][1..] == order[i + 1..];
        var objs := knownWorld[order[i]];
        var j := 0;
        while j < |objs|
          invariant 0 <= j <= |objs|
          invariant FindInCell(objs[j..], pid) == FindInCell(objs, pid)
        {
          assert objs[j..][1..] == objs[j + 1..];
          var o := objs[j];
          if o.kind == KindC(Player) {
            if "number" !in o.attrs {
              return NoNumber;
            }
            if o.attrs["number"] == IntV(pid) {
              return Found(order[i], o);
            }
          }
          j := j + 1;
        }
        assert objs[j..] == [];
        i := i + 1;
      }
      assert order[i..] == [];
      return NotFound;
    }

    /** `_vision_update`: the attribute table is unpacked first (a failure there
        changes nothing), then the records are applied in order; a failure in
        the middle leaves the cells already rewritten. */
    method VisionUpdate(p: Packet) returns (ok: bool)
      modifies this
      ensures (knownWorld, ok) == DecodeVision(old(knownWorld), p)
      ensures gameId == old(gameId) && playerId == old(playerId) && vision == old(vision)
      ensures keepaliveTimer == old(keepaliveTimer) && sent == old(sent)
    {
      var unpacked: seq<Attrs> := [];
      var j := 0;
      while j < |p.attributes|
        invariant 0 <= j <= |p.attributes| && |unpacked| == j
        invariant forall k :: 0 <= k < j ==> UnpackAttribute(p.attributes[k]) == Some(unpacked[k])
        invariant unchanged(this)
      {
        var a := UnpackAttribute(p.attributes[j]);
        if a.None? {
          return false;
        }
        unpacked := unpacked + [a.value];
        j := j + 1;
      }
      assert forall k :: 0 <= k < |p.attributes| ==> UnpackAttribute(p.attributes[k]).Some?;
      assert unpacked == UnpackAll(p.attributes).value;
      var objs := p.objects;
      var kw := knownWorld;
      var cleared: set<Coord> := {};
      var i := 0;
      while i < |objs|
        invariant 0 <= i <= |objs| && cleared <= kw.Keys
        invariant Run(kw, cleared, objs[i..], unpacked) == Run(old(knownWorld), {}, objs, unpacked)
        invariant unchanged(this)
      {
        if |objs| - i < 4 {
          knownWorld := kw;
          return false;
        }
        ghost var rest := objs[i..];
        assert rest[4..] == objs[i + 4..];
        assert rest[0] == objs[i] && rest[1] == objs[i + 1] && rest[2] == objs[i + 2] && rest[3] == objs[i + 3];
        RunStep(kw, cleared, rest, unpacked);
        ghost var kw0, cl0 := kw, cleared;
        var c := (objs[i], objs[i + 1]);
        var objType := objs[i + 2];
        var attrId := objs[i + 3];
        var attr: Attrs;
        if attrId == -1 {
          attr := map[];
        } else {
          var a := PyIndex(unpacked, attrId);
          if a.None? {
            knownWorld := kw;
            return false;
          }
          attr := a.value;
        }
        if c !in cleared {
          kw := kw[c := []];
          cleared := cleared + {c};
        }
        if objType != -1 {
          var k := FromNumerical(objType);
          if k.None? {
            knownWorld := kw;
            return false;
          }
          kw := kw[c := kw[c] + [CObj(k.value, attr)]];
        }
        assert cleared == cl0 + {c};
        assert objType == -1 ==> kw == (if c in cl0 then kw0 else kw0[c := []]);
        assert Run(kw, cleared, objs[i + 4..], unpacked) == Run(kw0, cl0, rest, unpacked);
        i := i + 4;
      }
      knownWorld := kw;
      assert objs[i..] == [];
      return true;
    }
  }
}
