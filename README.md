# whiteshoe in Dafny

A model of the core of whiteshoe, a real-time multiplayer game for the terminal. The server holds the authoritative world, a grid that maps each coordinate to an ordered list of objects (walls, players, bullets, explosions, mines, slime, lava). Each object is a kind plus an attribute dict. Players move, look and fire. Every tick, time-driven effects advance: bullets fly, explosions burn out, slime spreads and lava burns. Every change marks cells and players dirty. Each player keeps a remembered world. After every change, the cells the player's vision function lets it see are merged into that memory. Cells out of sight decay to their historical objects, and the cells that changed are packed into size-bounded vision packets for that player. The client unpacks those packets into its own copy of the remembered world.

The model covers these parts of the source:

- `game.py`, the current game engine: `GameEngine.BaseGame` with its free-for-all and team modes.
- `server.py`, the older engine: `Server.Game`, with its own vision helpers (`ServerView`) and map helpers (`ServerMaps`).
- `vision.py`: the vision functions (`Vision`).
- The known-world update and the vision packet format: `Sync`, `Wire` and `VisionRoundTrip`.
- `utility.py`: the helpers (`Grid`, `Utility`, `Ids`, `Timer`, `BiDict`, `Framing`, `NestyDict`, `Automaton`).
- `constants.py`: the constant table and its numeric codec (`Constants`).
- `maps.py` (`Maps`) and `level.py` (`Level`): the map generators and level files.
- The client's world model in `client.py` (`Client`), and the fake network of `window.py` (`Window`).
- `scripts/conway.py` (`Conway`).

Objects are values `Entity(obj, oid)`. The `oid` stands for Python object identity: when the source updates an attribute dict in place, every list entry that refers to that object shows the change. Randomness enters as a nondeterministic choice or as an oracle parameter. Time is a whole number of milliseconds. Python exceptions become `None` or a `false` outcome with the state the source leaves behind. Where constants the source uses are missing from `constants.py`, they are fields of a `Config` value. Loops in the source are methods with invariants, proved against functions that say what they compute. The properties the game promises are lemmas about those functions: round trips of the packet codec, vision updates, scores, flight, blast areas, slime spread and lava clocks.

## Model

| member | source | states |
|---|---|---|
| Entities.Objs | src/whiteshoe/game.py:387-395 | the values of a cell list, position by position, as Python's `==` on two cell lists compares them |
| Entities.ValOf | src/whiteshoe/constants.py:26-34 | a numeric wire constant N1..N9 stored as an attribute becomes the plain integer it is in the source; every other constant stays a constant |
| Entities.CoordsWith | src/whiteshoe/game.py:397-399 | the cells returned are exactly the cells of the world holding an object of one of the requested kinds |
| Entities.ObjsOfKind | src/whiteshoe/game.py:387-395 | only objects of the requested kinds are returned, no more than the cell holds, and none exactly when the cell holds no such object |
| Grid.RemoveFirst | src/whiteshoe/server.py:484-488 | `list.remove`: one element fewer when `x` occurs, the list unchanged otherwise; other elements keep their membership, and a list without repeats loses `x` entirely |
| Grid.ColumnsMembers | src/whiteshoe/utility.py:198-204 | the nested loops of `neighbourhood` enumerate exactly the cells of the rectangle, each once, count×h of them |
| Grid.NeighbourhoodMembers | src/whiteshoe/utility.py:198-204 | `neighbourhood(c, n)` lists exactly the (2n+1)² cells within Chebyshev distance n of c, c included, each once (nothing for negative n) |
| Grid.Neighbourhood | src/whiteshoe/utility.py:198-204 | the double loop builds the column-by-column sequence whose members the lemma above characterises |
| Grid.ReachMembers | src/whiteshoe/utility.py:206-211 | a cell is in the union of the 1-neighbourhoods of `cs` exactly when it is within Chebyshev distance 1 of some cell of `cs` |
| Grid.BorderMembers | src/whiteshoe/utility.py:206-211 | a border cell is outside the region and touches it (orthogonally or diagonally); every such cell is a border cell |
| Grid.Border | src/whiteshoe/utility.py:206-211 | the loop over the coordinates computes exactly the border set characterised above |
| Grid.CardinalNeighbourhood | src/whiteshoe/utility.py:213-220 | four distinct cells, exactly those at Manhattan distance 1 from the centre |
| Grid.WallDirection | src/whiteshoe/utility.py:222-231 | always '-' or a vertical bar, and the vertical bar exactly when neither horizontal neighbour of the chosen cell is a wall |
| Grid.InsertRowMajorSorted | src/whiteshoe/utility.py:581-596 | inserting into a list sorted by (y, x) keeps it sorted |
| Grid.SortRowMajor | src/whiteshoe/utility.py:581-596 | the `sorted(..., key=itemgetter(1, 0))` of the source: sorted by (y, x), same length, a permutation of the input |
| Grid.Perimeter | src/whiteshoe/utility.py:581-596 | None exactly for empty input (IndexError); otherwise sorted by (y, x) and holding exactly the input cells that share a row or column with the top-left or bottom-right cell |
| Grid.OnLines | src/whiteshoe/utility.py:588-596 | the filter keeps exactly the cells on a line through either corner, keeps the input order and invents nothing |
| Grid.Corners | src/whiteshoe/utility.py:610-628 | None exactly for empty input; otherwise the first and last cells in (y, x) order bound every input cell, and the result is the four corners of the rectangle they span |
| Utility.DictDifference | src/whiteshoe/utility.py:249-261 | the changed keys are those present on one side only or with different values, and there are none exactly when the two dictionaries are equal |
| Utility.CombineFlags | src/whiteshoe/utility.py:660-677 | fails exactly when a flag name is empty (IndexError on `flag[0]`); otherwise every result flag is a plain flag of A or B, every plain flag of A or of B that B does not negate survives, every flag B negates and does not name is gone, and with no self-contradicting B the result is the merge |
| Utility.GetEntityState | src/whiteshoe/utility.py:630-658 | fails exactly when the datum's or the entity's flags, or the flags of a property set whose flag the first merge turned on, hold the empty flag name; otherwise `first` is the first merge of the datum's and the entity's flags, `visited` lists each turned-on flag that has a property set exactly once, the result is the datum overridden by the entity state and then by those property sets in the order of `visited`, and 'flags' holds the last of the merges chained from `first` through each visited property set's flags; every key comes from the datum, the state or a property set, and a key no property set names keeps its entity-over-datum value |
| Utility.VisitFlags | src/whiteshoe/utility.py:651-656 | succeeds exactly when no turned-on property set carries the empty flag name; then it visits each turned-on flag with a property set once, the properties are the base overlaid in that order and the flags are the end of the chain of merges |
| Utility.VisitFlag | src/whiteshoe/utility.py:652-656 | one visited flag: fails exactly when its property set's flags hold the empty name; otherwise the property set is applied and the merge appended to the chain |
| Utility.OverlaidKeys | src/whiteshoe/utility.py:651-654 | after any sequence of overlays, each key comes from the base or some property set, and a key no property set names keeps its base value |
| Utility.PathShape | src/whiteshoe/utility.py:680-722 | the walk starts at `start`, ends at start + (x, y), has 1 + abs(x) + abs(y) cells and every step moves one cell orthogonally |
| Utility.RejectedPrefix | src/whiteshoe/utility.py:718-721 | a walk rejected after its first leg stays rejected after its second, so checking after each leg equals checking the whole walk |
| Utility.WalkLeg | src/whiteshoe/utility.py:695-716 | one `for` loop of the source appends exactly the k unit steps of the leg and leaves `current` k cells further along the axis |
| Utility.GeneratePath | src/whiteshoe/utility.py:680-722 | returns the walk exactly when none of its cells is forbidden or off the whitelist, and False (None) otherwise |
| Ids.IdCounter.GetId | src/whiteshoe/utility.py:34-46 | a new family gets `start` (its counter moves to start+1); otherwise the last released id is popped, else the counter is handed out and bumped; the id was not in use, is in use afterwards, and no other id changes status |
| Ids.IdCounter.ReleaseId | src/whiteshoe/utility.py:48-55 | the id is appended to its family's free list, counters are untouched, the id is no longer in use and no other id changes status |
| BiDict.Bidict.Get | src/whiteshoe/utility.py:157-163 | None (KeyError) exactly for a key not among the elements; otherwise the forward image if there is one, else the backward image |
| BiDict.Bidict.Length | src/whiteshoe/utility.py:185-186 | the number of elements |
| BiDict.Bidict.constructor | src/whiteshoe/utility.py:144-151 | the result is a valid bidict whose elements are exactly the keys and the values of the initial dict |
| BiDict.Bidict.Delete | src/whiteshoe/utility.py:176-183 | succeeds exactly when the key is an element; then the key leaves the elements and both directions, otherwise nothing changes |
| BiDict.Bidict.Set | src/whiteshoe/utility.py:164-174 | earlier entries for the key and the value are dropped, the pair is recorded both ways, and afterwards each side looks up the other |
| Timer.RecurringTimer.Start | src/whiteshoe/utility.py:111-112 | records the current time, keeping the accumulated remainder |
| Timer.RecurringTimer.Check | src/whiteshoe/utility.py:114-141 | the first call only starts the timer and returns 0; a clock that went backwards returns 0 and changes nothing; otherwise accumulated time plus the elapsed time equals amount periods plus the new remainder, which stays below one period |
| Framing.DecodeEncodeLength | src/whiteshoe/utility.py:343-352 | the four-byte big-endian length prefix decodes back to the length it encodes |
| Framing.StreamWrap | src/whiteshoe/utility.py:345-352 | None exactly when the payload is too long for a 32-bit length; otherwise four length bytes that decode to the payload length, followed by the payload |
| Framing.StreamUnwrap | src/whiteshoe/utility.py:354-376 | the loop strips whole frames as the recursive definition does, and the remainder holds no whole frame |
| Framing.UnwrapFrames | src/whiteshoe/utility.py:345-376 | round trip: unwrapping wrapped payloads followed by an incomplete remainder gives back exactly those payloads and that remainder |
| NestyDict.Nesty.Get | src/whiteshoe/utility.py:514-515 | found exactly when prefix + [key] is in the shared store, and then its entry |
| NestyDict.Nesty.GetOr | src/whiteshoe/utility.py:559-563 | the default for a key the view does not hold, otherwise the lookup |
| NestyDict.Nesty.Length | src/whiteshoe/utility.py:551-552 | the number of keys of this view |
| NestyDict.Nesty.Set | src/whiteshoe/utility.py:516-528 | the key joins the view; a plain value is stored at prefix + [key]; a dict becomes a fresh child view over the same store holding the dict's keys, every leaf of the dict ends up at its full path, and no entry outside prefix + [key] changes |
| NestyDict.Nesty.Delete | src/whiteshoe/utility.py:530-540 | succeeds exactly when the entry and the key exist; then the key leaves the view and every store entry at or below prefix + [key] is removed, the rest unchanged; a missing store entry changes nothing, a key missing from the view removes only the entry |
| NestyDict.Nesty.EmptyAsWritten | src/whiteshoe/utility.py:545-547 | as written, `empty` succeeds only on a view with no keys: on any other it deletes one key and then fails (the key set changes size while being iterated) |
| NestyDict.Nesty.Empty | src/whiteshoe/utility.py:545-547 | as intended: on success the view has no keys and exactly the store entries below its keys are gone; it succeeds exactly when every key of the view has its store entry |
| Ids.IdCounter.constructor | src/whiteshoe/utility.py:28-32 | a new counter starts at 0, with no family counted and no id released |
| Timer.RecurringTimer.constructor | src/whiteshoe/utility.py:104-109 | the period must be positive; the timer has not started and has accumulated nothing |
| BiDict.Bidict.Empty | src/whiteshoe/utility.py:144-151 | a bidict built without a dict holds no pair, in either direction |
| NestyDict.Store.constructor | src/whiteshoe/utility.py:497-501 | the flat dict shared by the views starts empty |
| NestyDict.Nesty.Root | src/whiteshoe/utility.py:497-503 | a nesty built without arguments has the empty prefix, no keys, and a fresh empty dict |
| NestyDict.Nesty.Child | src/whiteshoe/utility.py:519-520 | a nested view shares the parent's dict, has the longer prefix and no keys yet |
| Framing.EncodeLength | src/whiteshoe/utility.py:343-352 | a frame length packs into exactly four bytes |
| Framing.DecodeLength | src/whiteshoe/utility.py:354-376 | four bytes read back as a length below 2^32 |
| Constants.Diff | src/whiteshoe/constants.py:60-69 | every direction's step moves at most one cell along each axis and is never the null step |
| Constants.Opposite | src/whiteshoe/constants.py:60-69 | the opposite direction's step undoes the step of `d`, and it is a different direction |
| Constants.Adjacent | src/whiteshoe/constants.py:70-76 | the ADJACENT entry of a cardinal facing: five distinct directions including the facing itself and never its opposite |
| Constants.DirOf | src/whiteshoe/constants.py:60-69 | the inverse lookup of DIFFS: a found direction has exactly that step, and None means no direction has it |
| Constants.KindClasses | src/whiteshoe/constants.py:78-86 | the kind classes relate as declared: opaque objects are the walls, solid objects are walls plus players, historical objects are walls plus empty floor, so whatever blocks sight also blocks movement |
| Constants.BulletSpeedsIncrease | src/whiteshoe/constants.py:92-102 | BULLET_SPEEDS has entries for sizes 1..9 only, all positive, and a larger size waits longer between moves |
| Constants.TableSortedByName | src/whiteshoe/constants.py:36-39 | the numeric table is sorted by the names of the network constants, as `_constants.sort(key=itemgetter(0))` orders it |
| Constants.TableHoldsClassBody | src/whiteshoe/constants.py:4-39 | the table holds every network constant declared before it, and nothing else |
| Constants.IndexOf | src/whiteshoe/constants.py:108-110 | `list.index`: None (ValueError) exactly when absent; otherwise the first position holding the value |
| Constants.ToNumerical | src/whiteshoe/constants.py:108-110 | a constant's code is a position of the table |
| Constants.FromNumerical | src/whiteshoe/constants.py:112-113 | `table[number]` with Python's negative indexing: defined exactly for -size <= n < size, counting from the end for negative n; numeric constants come back as 1..9 |
| Constants.ConstAtIsTable | src/whiteshoe/constants.py:36-39 | the position-by-position constant lookup agrees with the table |
| Constants.CodeOfConstAt | src/whiteshoe/constants.py:108-113 | encoding the constant at position i gives i |
| Constants.ConstAtOfCode | src/whiteshoe/constants.py:108-113 | the constant at the code of c is c |
| Constants.TableDistinct | src/whiteshoe/constants.py:36-39 | no value appears twice in the table, so `index` finds the only position |
| Constants.ToNumericalIsIndex | src/whiteshoe/constants.py:108-110 | the code of a constant is the `index` of it in the table |
| Constants.FromToNumerical | src/whiteshoe/constants.py:108-113 | round trip: decoding the code of a constant gives the constant back |
| Constants.ToFromNumerical | src/whiteshoe/constants.py:108-113 | round trip: every valid non-negative code decodes to a constant whose code is that number |
| Constants.KindCode | src/whiteshoe/constants.py:17-24 | a kind has a wire code exactly when constants.py declares it (mines, slimes, slime bullets and lava have none) |
| Constants.DirCode | src/whiteshoe/constants.py:5-12 | the code of a direction is a table position holding that direction |
| Wire.FlattenAppend | src/whiteshoe/game.py:370-378 | the flat `objects` list of records appended in two batches equals the two flat lists concatenated, as `objects.extend` builds it |
| Wire.PackAttribute | src/whiteshoe/game.py:1013-1022 | fails exactly when the 'direction' value has no numeric code (ValueError in `index`); otherwise the Attribute carries exactly the ATTRIBUTE_KEYS the object has |
| Wire.Projected | src/whiteshoe/game.py:1013-1022 | the attributes a client can see are exactly the object's ATTRIBUTE_KEYS, nothing for an empty attribute dict |
| Wire.ConstCodeRoundTrip | src/whiteshoe/client.py:486-493 | a 'direction' value encoded by `to_numerical_constant` decodes back to the same value on the client |
| Wire.AttributeRoundTrip | src/whiteshoe/client.py:483-495 | the client's unpacking of a packed attribute dict gives back exactly its ATTRIBUTE_KEYS entries with their values |
| Wire.ObjRecordsSome | src/whiteshoe/game.py:366-378 | a cell's objects can all be packed exactly when each has a wire code and a packable attribute dict |
| Wire.ObjRecordsShape | src/whiteshoe/game.py:366-378 | one 4-int record per object and one Attribute per object with attributes; each record holds the cell, the object's code and either -1 or the index of its own Attribute |
| Wire.PrefixedStep | src/whiteshoe/game.py:366-378 | one iteration of the inner loop: an uncodable object fails the packet, an attribute-less one adds a record with -1, any other adds a record pointing at the Attribute it appends |
| Wire.PackFromSplit | src/whiteshoe/game.py:346-382 | the packets built are well split: only the first carries clear_all, every one carries the game id, and each packet but the last was closed only after it grew past PACKET_SIZE_LIMIT |
| Wire.PlayerVisionSplit | src/whiteshoe/game.py:331-385 | every successful vision update is split as described for PackFromSplit |
| Wire.PackFromFails | src/whiteshoe/game.py:349-378 | the update fails exactly when some cell it sends holds a known object that cannot be packed |
| Wire.SendPlayerVision | src/whiteshoe/game.py:331-385 | the loop over the coordinates produces exactly the packets of the recursive definition of `_send_player_vision` |
| Wire.AppendCell | src/whiteshoe/game.py:360-378 | one cell appended to the current packet: succeeds exactly when the cell's records can be built, and then extends `objects` and `attributes` by them |
| VisionRoundTrip.ClientObjs | src/whiteshoe/client.py:498-513 | the client's copy of a cell: one entry per object, with its kind and the attributes that went over the wire |
| VisionRoundTrip.RunAppend | src/whiteshoe/client.py:498-513 | the client's loop over records handles a concatenation as the first part followed by the second |
| VisionRoundTrip.RunHead | src/whiteshoe/client.py:498-513 | one record: the cell is cleared the first time it is seen in a packet, then the decoded object is appended |
| VisionRoundTrip.RunObjRecords | src/whiteshoe/client.py:498-513 | decoding a cell's object records, after the cell was cleared, appends exactly the client copies of those objects |
| VisionRoundTrip.RunEmptyCell | src/whiteshoe/game.py:363-367 | the -1 record sent for an empty known cell makes the client clear that cell and nothing else |
| VisionRoundTrip.RunCellRecords | src/whiteshoe/client.py:498-513 | decoding a cell's records replaces the client's cell by the client copies of the sent objects |
| VisionRoundTrip.RunGroup | src/whiteshoe/client.py:498-513 | decoding a packet's records for distinct cells overrides each of those cells with what was sent |
| VisionRoundTrip.ObjRecordsUnpack | src/whiteshoe/client.py:483-495 | every Attribute the server packs for a cell can be unpacked by the client |
| VisionRoundTrip.DecodeBuild | src/whiteshoe/client.py:463-513 | decoding one packet built from distinct cells succeeds and overrides exactly those cells |
| VisionRoundTrip.PlayerVisionRoundTrip | src/whiteshoe/game.py:331-385 | round trip: a client that decodes every packet of a vision update for distinct coordinates ends with its old world overridden, at each sent cell, by the server's known cell as the wire carries it |
| VisionRoundTrip.PackFromRoundTrip | src/whiteshoe/game.py:346-382 | the inductive core of the round trip: the packets still to come, decoded after those already sent, give the same overridden world |
| VisionRoundTrip.SentWorldCells | src/whiteshoe/game.py:349-356 | a cell that is sent (in the world and known to the player) holds the client copy of the known objects afterwards; every other cell is as before |
| Vision.StepInjective | src/whiteshoe/vision.py:39-53 | a ray never revisits a cell: distinct step counts along a non-null direction give distinct cells |
| Vision.RayEnds | src/whiteshoe/vision.py:39-53 | once the ray leaves the world, or has just added an opaque cell, the cells it saw are exactly the steps taken so far |
| Vision.StepsGrow | src/whiteshoe/vision.py:44-48 | each turn of the loop adds one new cell to the cells seen |
| Vision.ReachedNext | src/whiteshoe/vision.py:44-52 | the ray goes on into the next cell when it is in the world and no cell so far was opaque |
| Vision.AnyOpaque | src/whiteshoe/vision.py:50-52 | the loop over a cell's objects finds an opaque object exactly when the cell blocks sight |
| Vision.LookUntilWall | src/whiteshoe/vision.py:39-53 | the loop returns exactly the cells of the ray: in the world, up to and including the first opaque one, and nothing outside the world |
| Vision.Cone | src/whiteshoe/vision.py:20-59 | defined exactly for a cardinal facing (ADJACENT has no other entries, a KeyError otherwise) and then the cone set: own cell, the cell behind if in the world, and the rays along the five adjacent directions |
| Vision.RayUnionMembers | src/whiteshoe/vision.py:55-57 | a cell is in the union of the rays exactly when some adjacent direction's ray contains it |
| Vision.BehindOffRays | src/whiteshoe/vision.py:26-33 | no ray of the cone passes through the cell behind, so that cell is only seen through the explicit rule |
| Vision.ConeProperties | src/whiteshoe/vision.py:20-59 | the cone holds the viewer's own cell, holds the cell behind exactly when it is in the world, and otherwise only cells of the world |
| Vision.ConeRays | src/whiteshoe/vision.py:20-59 | a cell is in the cone exactly when it is the viewer's cell, the cell behind (in the world), or on the ray of one of the five adjacent directions |
| Vision.All | src/whiteshoe/vision.py:61-64 | every cell of the world and nothing else |
| Vision.Blind | src/whiteshoe/vision.py:240-242 | no cell at all |
| Vision.SquareAsWritten | src/whiteshoe/vision.py:14-17 | as written, every call fails: `neighbourhood` is not imported into vision.py, so it raises NameError |
| Vision.Square | src/whiteshoe/vision.py:14-17 | as intended: exactly the cells within Chebyshev distance 3 of the viewer, whether or not they are in the world |
| Vision.ComposeApply | src/whiteshoe/vision.py:96-104 | `__mul__` composes: applying the product is applying the right factor and then the left |
| Vision.Inverse | src/whiteshoe/vision.py:106-115 | the inverse fails exactly when the determinant is zero (ZeroDivisionError) |
| Vision.Rotation | src/whiteshoe/vision.py:184-187 | the rotation table has exactly the four cardinal facings, each a pure linear map with no translation |
| Vision.CameraRoundTrip | src/whiteshoe/vision.py:183-189 | for a cardinal facing the world-to-camera map sends the viewer to the origin, is invertible, and the inverse undoes it in both orders, sending the origin back to the viewer |
| Vision.Bresenham | src/whiteshoe/vision.py:120-138 | the line starts at a, ends at b, and every step moves to one of the eight neighbouring cells (so the loop ends) |
| Vision.BresenhamStep | src/whiteshoe/vision.py:130-138 | with the error term as the loop keeps it, each step moves towards b along at least one axis and never overshoots it |
| Vision.SpokesShape | src/whiteshoe/vision.py:168-172 | the inner loop yields four points per i, all right of the viewer and within the radius |
| Vision.RingsLength | src/whiteshoe/vision.py:163-175 | radius after radius, each ring yields 5 + 4·max(0, half−1) points |
| Vision.RingsBounds | src/whiteshoe/vision.py:163-175 | every point of the rings lies in front of the viewer and within max(radius, half) of it on each axis |
| Vision.AppendRing | src/whiteshoe/vision.py:164-175 | one radius n of the generator adds exactly ring n after what was yielded before: the three on-axis points, the four-point spokes for i = 1..half_radius-1, then the two corners |
| Vision.RightPointsByDistance | src/whiteshoe/vision.py:160-175 | the generator yields the origin followed by the rings for radii 1..max_radius, in that order |
| Vision.RightPointsShape | src/whiteshoe/vision.py:160-175 | the sequence has 1 + m·(5 + 4·max(0, m/2−1)) points, all in front of the viewer and within m on each axis |
| Vision.CameraToWorld | src/whiteshoe/vision.py:188-189 | the camera origin maps back to the viewer's cell |
| Vision.IsImpeded | src/whiteshoe/vision.py:142-151 | a camera point is impeded exactly when its world cell holds an opaque object (memoisation does not change the answer) |
| Vision.ImpededAround | src/whiteshoe/vision.py:226-227 | counts exactly the impeded points among the four orthogonal neighbours |
| Vision.SeenAround | src/whiteshoe/vision.py:235-236 | counts exactly the neighbours whose world cell is already among the outputs |
| Vision.LineOfSight | src/whiteshoe/vision.py:214-220 | the line runs from the viewer to the point, and the point is visible exactly when no cell strictly between is impeded |
| Vision.Rays | src/whiteshoe/vision.py:67-238 | defined exactly for a cardinal facing; the result lies in the world, holds the viewer's cell exactly when it is in the world, always holds the six initial output cells that are in the world, and only cells reachable from the candidate points |
| Vision.RaysUpTo | src/whiteshoe/vision.py:183-238 | the same promises as Rays for any maximum radius: None exactly for a facing without a rotation matrix; otherwise a subset of the world that keeps the viewer's cell exactly when it is in the world, keeps every initial camera cell that is in the world, and holds only images of the initial cells and the enumerated points |
| Vision.ScanPoints | src/whiteshoe/vision.py:196-231 | after the main loop the outputs are exactly the images of the initial cells plus some of the enumerated points, and every potential corner is one of the enumerated points |
| Vision.AddCorners | src/whiteshoe/vision.py:233-237 | the corner pass only adds outputs, and each one it adds is the image of a potential corner, so the outputs stay images of enumerated points |
| Vision.LookupNames | src/whiteshoe/vision.py:8-12 | the registry maps each vision function's name to that function and to no other |
| Vision.See | src/whiteshoe/vision.py:8-242 | calling a vision function by its registered name gives the result its definition states |
| Automaton.Digits | src/whiteshoe/utility.py:308 | `[int(n) for n in s]`: defined exactly when every character is a decimal digit, and then digit by digit its value |
| Automaton.SlashAt | src/whiteshoe/utility.py:308 | the position of the first '/', None exactly when there is none |
| Automaton.ParseRules | src/whiteshoe/utility.py:308 | a rule string parses exactly when it is one '/' between two strings of decimal digits (any other shape makes the unpacking or `int` raise) |
| Automaton.ParseRulesFormat | src/whiteshoe/utility.py:308 | round trip: the rule string written from birth and survival digit lists parses back to those lists |
| Automaton.DigitsOfDigitString | src/whiteshoe/utility.py:308 | round trip: parsing the string of a digit list gives the list back |
| Automaton.SlashAtFirst | src/whiteshoe/utility.py:308 | the first '/' of a + "/" + b is the one after a when a has none |
| Automaton.RowMajorCellsMembers | src/whiteshoe/utility.py:272-275 | `cells()` yields exactly the cells with 0 <= x < width and 0 <= y < height |
| Automaton.CellularAutomaton.constructor | src/whiteshoe/utility.py:264-267 | a width×height grid with every cell dead |
| Automaton.CellularAutomaton.Contains | src/whiteshoe/utility.py:291-292 | a coordinate is contained exactly when it is inside the grid |
| Automaton.CellularAutomaton.Length | src/whiteshoe/utility.py:288-289 | the number of cells, width × height |
| Automaton.CellularAutomaton.Set | src/whiteshoe/utility.py:281-283 | sets one cell and leaves every other cell as it was |
| Automaton.CellularAutomaton.SumLiveCounts | src/whiteshoe/utility.py:318 | summing `self[n] if in_bounds(n) else boundary` over distinct neighbours counts the live ones inside plus, when boundary is on, the ones outside |
| Automaton.CellularAutomaton.CountMeaning | src/whiteshoe/utility.py:315-318 | a cell's number is the count of its eight neighbours that are inside and alive, plus the ones outside when the boundary counts as alive |
| Automaton.CellularAutomaton.StableIffQuiet | src/whiteshoe/utility.py:305-334 | a grid is stable under the rules exactly when no cell is to be born and none is to die |
| Automaton.CellularAutomaton.Seed | src/whiteshoe/utility.py:297-299 | every cell takes the value of its coin (`rng.random() < density`, a parameter here) |
| Automaton.CellularAutomaton.CountAt | src/whiteshoe/utility.py:314-318 | the loop computes the neighbour count characterised above |
| Automaton.CellularAutomaton.Fill | src/whiteshoe/utility.py:328-332 | the listed cells take the value, every other cell keeps its old one |
| Automaton.CellularAutomaton.Scan | src/whiteshoe/utility.py:313-326 | will_birth is exactly the dead cells whose count is a birth count, will_die exactly the live cells whose count is not a survival count, and both are empty exactly when the grid is stable |
| Automaton.CellularAutomaton.Apply | src/whiteshoe/utility.py:305-334 | fails, changing nothing, exactly when the rules do not parse; otherwise every cell becomes its next-generation value computed from the old grid, and the result is true exactly when the old grid was not stable |
| Automaton.CellularAutomaton.Commit | src/whiteshoe/utility.py:328-334 | after the births are written and then the deaths, a cell due to die is dead, one due to be born is alive, and every other cell keeps its value |
| Automaton.CellularAutomaton.ScanRow | src/whiteshoe/utility.py:313-326 | after a row is scanned, the collected cells are exactly those of the rows so far whose neighbour count meets the birth rule (dead cells) or misses the survival rule (live cells) |
| Automaton.CellularAutomaton.Converge | src/whiteshoe/utility.py:336-341 | succeeds unless it has to apply unparsable rules; when it stops before max_ticks the grid is stable |
| Conway.Neighbours | scripts/conway.py:10-15 | eight distinct cells, exactly those at Chebyshev distance 1 |
| Conway.CountAliveIsCard | scripts/conway.py:52-55 | the counting loop over distinct neighbours gives the number of neighbours alive in the world |
| Conway.LiveNeighboursAre | scripts/conway.py:52-55 | a cell's count is the number of live cells of the world around it, at most 8 (cells off the screen count as dead) |
| Conway.NextGeneration | scripts/conway.py:48-70 | the next generation has the same cells as the world |
| Conway.GenerationRules | scripts/conway.py:56-70 | a live cell with 2 or 3 live neighbours ages by one, any other live cell dies, and a dead cell comes alive with age 1 exactly when it has 3 or 6 live neighbours |
| Conway.AgesStayNatural | scripts/conway.py:56-70 | ages never go negative, and a cell is alive next exactly when the survival or birth rule applies to it |
| Conway.Generation | scripts/conway.py:48-70 | the loop over the world followed by the three update loops computes exactly the next generation |
| Conway.Apply | scripts/conway.py:65-70 | applying the born, survived and died lists a cell at a time gives the next generation |
| Conway.Assign | scripts/conway.py:65-70 | the listed cells take the value, every other cell keeps its age |
| Conway.Age | scripts/conway.py:67-68 | the listed cells age by one, every other cell keeps its age |
| Window.Diff | window.py:125-132 | every command's step moves exactly one cell orthogonally; an unknown command has none (KeyError) |
| Window.LocateIn | window.py:112-116 | a player found in a cell is one of its objects and is player number 0 |
| Window.LocateFinds | window.py:109-121 | a found location is a cell of the world that holds player 0 |
| Window.CountInAppend | window.py:137-140 | appending an object adds one to the cell's player-0 count exactly when it is player 0 |
| Window.CountInRemove | window.py:123 | `list.remove` of an object lowers the cell's player-0 count by one exactly when it is player 0 |
| Window.CountAllUpdate | window.py:123-140 | replacing one cell changes the world's player-0 count by the difference of the two cells' counts |
| Window.LayoutCovers | window.py:94-98 | `itertools.product(range(80), range(24))` visits exactly the 80×24 screen cells, each once |
| Window.InitialWorldAt | window.py:90-100 | every screen cell holds one wall or one empty floor, except (0, 0), which holds empty floor and player 0 |
| Window.InitialWorldShape | window.py:90-100 | the initial world holds exactly one player 0 |
| Window.MovedFrame | window.py:123-140 | a move changes only the old and new cells: the player leaves the old cell and is appended to the new one, or back onto the old one when the new one is off the map |
| Window.MovedCount | window.py:123-140 | a move keeps the number of players 0 in the world |
| Window.FakeNetwork.constructor | window.py:90-100 | starts with the initial world over the 80×24 screen, and keeps as its dict order any listing of the screen's cells, each once |
| Window.FakeNetwork.Find | window.py:109-121 | the search through the world finds player 0 where the recursive definition locates it |
| Window.FakeNetwork.SendCommand | window.py:105-140 | fails (the source's assertion or KeyError) exactly when there is no player 0 or the command is unknown; an unknown command still removes the player first; a known one moves it by the command's step, and success keeps exactly one player 0 count |
| Conway.CountAlive | scripts/conway.py:52-55 | the count of live neighbours never exceeds the number of cells counted |
| Maps.Product | src/whiteshoe/maps.py:21-25 | the `itertools.product(range(X), range(Y))` loop gives every cell of the X×Y rectangle its tile, and no other cell |
| Maps.EmptyMap | src/whiteshoe/maps.py:29-35 | every cell of the X×Y rectangle holds exactly one empty floor object, and no other cell exists |
| Maps.Drawn | src/whiteshoe/maps.py:22-25 | a draw below 0.35 gives a wall, any other draw empty floor |
| Maps.PureRandom | src/whiteshoe/maps.py:16-27 | every cell of the rectangle holds one wall or one empty floor, decided by its own draw of the seeded generator (a parameter here) |
| Maps.HalfGrid | src/whiteshoe/maps.py:61 | the maze cells are exactly the cells of the X//2 × Y//2 rectangle |
| Maps.Connected | src/whiteshoe/maps.py:73-92 | while some maze cell is unvisited, some visited cell has an unvisited orthogonal neighbour, so the restart branch is never needed |
| Maps.Frontier | src/whiteshoe/maps.py:74-78 | the candidate neighbours are exactly the unvisited maze cells one orthogonal step away, and there is one exactly when the current cell is unfinished |
| Maps.AdvanceSearching | src/whiteshoe/maps.py:78-87 | pushing the current cell and moving to an unvisited neighbour keeps the search invariant |
| Maps.AdvanceTree | src/whiteshoe/maps.py:84-87 | recording the removed wall between the current cell and the new cell keeps the removed walls a spanning tree of the visited cells |
| Maps.Backtrack | src/whiteshoe/maps.py:88-89 | popping the stack from a finished cell keeps the search invariant |
| Maps.NoRestart | src/whiteshoe/maps.py:90-92 | a finished cell with an empty stack means every maze cell has been visited |
| Maps.Maze | src/whiteshoe/maps.py:57-92 | the depth-first loop ends with the removed walls forming a spanning tree of all maze cells: every cell is reachable from the first one through removed walls |
| Maps.SharedWall | src/whiteshoe/maps.py:104-108 | the cardinal neighbourhood of one doubled cell meets the neighbourhood of the other in exactly one cell, the wall between them (the source's `assert len(shared) == 1` holds) |
| Maps.OpensInside | src/whiteshoe/maps.py:100-112 | both doubled cells and the wall between them lie inside the X×Y world |
| Maps.OpenWall | src/whiteshoe/maps.py:100-112 | opening one removed wall makes the two doubled cells and the cell between them empty floor, nothing else changes |
| Maps.Carve | src/whiteshoe/maps.py:95-112 | the world is the X×Y rectangle, empty floor exactly at the cells some removed wall opens, wall everywhere else |
| Maps.DepthFirst | src/whiteshoe/maps.py:56-114 | fails (`r.choice` of an empty list) exactly when X//2 or Y//2 is not positive; otherwise the removed walls form a spanning tree, the world is the carved X×Y rectangle, and every doubled maze cell is empty floor whenever there are at least two maze cells |
| Maps.Ground | src/whiteshoe/maps.py:123-126 | the level starts as every cell of the X×Y rectangle, none of them floor |
| Maps.Paint | src/whiteshoe/maps.py:136-138 | a room adds its cells and makes them floor, keeping every other cell and the order of earlier cells |
| Maps.PaintColumn | src/whiteshoe/maps.py:137-138 | one column of a room becomes floor, every other cell is kept |
| Maps.Lift | src/whiteshoe/maps.py:140-147 | each cell becomes (x, y, 0) holding one entity, 'floor' or 'wall', with consecutive ids in visiting order |
| Maps.DungeonAlpha | src/whiteshoe/maps.py:116-147 | the level holds exactly the cells of the rectangle and of the drawn rooms at z = 0, each with one entity of a fresh consecutive id that is floor exactly when a room covers it |
| Maps.Probe | src/whiteshoe/maps.py:205-210 | the neighbour loop reports a built neighbour exactly when one of the probed cells in the world is not empty floor, and cannot fail when no probed cell is empty |
| Maps.Shape | src/whiteshoe/maps.py:219-230 | vertical only gives a vertical wall, horizontal only a horizontal wall, both a corner wall |
| Maps.PrettyStep | src/whiteshoe/maps.py:198-230 | one cell of the loop: only that cell changes, its length is kept, an empty-floor cell is untouched, and a changed cell loses its first object and gains a shaped wall at the end; it cannot fail when no cell is an empty list |
| Maps.Pretty | src/whiteshoe/maps.py:197-232 | the rewrite keeps the world's cells, and keeps every cell non-empty |
| Maps.PrettyStuck | src/whiteshoe/maps.py:197-232 | a failure (IndexError on an empty cell) part-way through makes the whole call fail |
| Maps.PrettyWalls | src/whiteshoe/maps.py:197-232 | the loop over the dict in its iteration order, rewriting cells in place, computes the fold |
| Maps.PrettyNext | src/whiteshoe/maps.py:198-230 | one turn of the loop rewrites the next cell on the map rewritten so far, as the fold says; a step that raises makes the whole walk raise |
| Maps.SimultaneousBuilt | src/whiteshoe/maps.py:208-215 | reshaping walls never changes whether a cell counts as built, so later cells see the same neighbours |
| Maps.PrettySimultaneous | src/whiteshoe/maps.py:197-232 | on a world of one-object cells the in-place loop equals rewriting every cell at once from the original world |
| Maps.StepSimultaneous | src/whiteshoe/maps.py:198-230 | one more step of the loop extends the simultaneous rewrite by that cell |
| Maps.PrettyOrderFree | src/whiteshoe/maps.py:197-232 | on a world of one-object cells the result does not depend on the dict's iteration order |
| Maps.JoinSnoc | src/whiteshoe/maps.py:175 | `'\n'.join` of one more row appends a newline and the row |
| Maps.Chars | src/whiteshoe/maps.py:168-173 | one character per cell: ' ' for an empty cell, otherwise the display character of its last object, '?' when it has none |
| Maps.RenderChars | src/whiteshoe/maps.py:157-173 | the closed rows and the open row together hold every cell's character in order |
| Maps.RenderShape | src/whiteshoe/maps.py:154-173 | the open row is empty exactly when there are no cells, no closed row is empty, and the last y is that of the last cell |
| Maps.RenderCount | src/whiteshoe/maps.py:157-166 | over cells sorted by (y, x) there is one closed row fewer than there are distinct y values |
| Maps.LastRowDropped | src/whiteshoe/maps.py:149-175 | as written, `world_to_string` is the intended text minus its last row: that row is built but never appended |
| Maps.OneCellPrintsNothing | src/whiteshoe/maps.py:149-175 | a one-cell world prints as "" though its text is "." |
| Maps.WorldToString | src/whiteshoe/maps.py:149-175 | the corrected rendering: cells in (y, x) order, one character each, rows split where y changes, the last row included |
| Maps.RenderLoop | src/whiteshoe/maps.py:154-173 | the loop builds the rows and the open row of the recursive definition |
| Maps.Generate | src/whiteshoe/maps.py:10-147 | looking a generator up by name succeeds exactly for the registered names whose code runs (ca_maze and ca_caves call a helper utility.py does not have); plain generators cover the 80×24 rectangle, 'empty' with empty floor, and dungeon_alpha gives the room level |
| Level.SplitLines | src/whiteshoe/level.py:35 | `split("\n")` gives at least one piece and no piece holds a newline |
| Level.SplitJoin | src/whiteshoe/level.py:35 | round trip: joining the pieces with newlines gives back the text |
| Level.Strip | src/whiteshoe/level.py:42 | `strip()`: no longer than the input, no leading or trailing whitespace, and a string without either comes back unchanged |
| Level.StripIsTrim | src/whiteshoe/level.py:42 | `strip()` returns the slice s[i..j] where s[..i] and s[j..] are all whitespace and the slice, when not empty, has no whitespace at either end, so the removed prefix and suffix are the longest whitespace runs |
| Level.DigitRun | src/whiteshoe/level.py:47 | the longest run of digits at the start of the string |
| Level.ZArg | src/whiteshoe/level.py:47-55 | the Z directive matches exactly the lines that start with 'Z ' or 'z ', an optional minus and at least one digit; a negative value comes only with the minus |
| Level.ZArgReadsBack | src/whiteshoe/level.py:47-55 | round trip: 'Z ' followed by the decimal digits of any integer z (with its minus) and then anything but a digit is read as z |
| Level.ShowNatValue | src/whiteshoe/level.py:51 | `int()` of the decimal digits of n is n |
| Level.Classify | src/whiteshoe/level.py:36-64 | an empty line is skipped, a line is a map row if and only if it is non-empty and does not start with '#', and a map row keeps the whole line as its symbols |
| Level.CommentIsDirective | src/whiteshoe/level.py:39-57 | a '##' comment is not skipped: it falls through to the directive list, as the code is written |
| Level.RowCells | src/whiteshoe/level.py:62-63 | `enumerate(row)` places each symbol at (x, y, z) |
| Level.ParseCounts | src/whiteshoe/level.py:33-64 | y counts the map rows seen and z is set by the last valid Z directive |
| Level.ParseCellsFrom | src/whiteshoe/level.py:62-64 | every parsed cell is a symbol of some map row at its own x and y |
| Level.ParseCellsCover | src/whiteshoe/level.py:62-64 | every symbol of every map row is parsed |
| Level.ParseCellsDistinct | src/whiteshoe/level.py:62-64 | no two parsed symbols share a coordinate, so no cell of `d` is overwritten |
| Level.EntitiesFor | src/whiteshoe/level.py:80-105 | a symbol becomes a non-empty entity list whose last entity carries the id drawn first for it (stairs get a floor before them) |
| Level.BuildKeys | src/whiteshoe/level.py:79-105 | the level has exactly the parsed coordinates |
| Level.BuildIds | src/whiteshoe/level.py:79-105 | the ids drawn are consecutive from the counter, and every entity with state carries one of them |
| Level.BuildAt | src/whiteshoe/level.py:79-105 | over any listing of the entries of `d` without a repeated coordinate, each listed cell holds the entities of its symbol with the ids drawn at its turn |
| Level.SymbolsKeys | src/whiteshoe/level.py:62-63 | the keys of `d` are exactly the recorded coordinates |
| Level.SymbolsAt | src/whiteshoe/level.py:62-63 | with no coordinate recorded twice, `d` maps each recorded coordinate to its symbol |
| Level.ListedKeys | src/whiteshoe/level.py:79-105 | whatever order the dict yields its keys in, the level has exactly the keys of `d` |
| Level.ListedAt | src/whiteshoe/level.py:79-105 | whatever order the dict yields its keys in, the k-th key yielded holds the entities of its symbol in `d`, with the ids drawn at its turn |
| Level.BuildFlagsAt | src/whiteshoe/level.py:96-100 | an up stair has flags ['up'] and a down stair ['down'] |
| Level.LoadShape | src/whiteshoe/level.py:27-107 | loading fails exactly when the text has no map symbol (IndexError on the empty sort), and otherwise the level has exactly the parsed coordinates, whatever the dict's key order |
| Level.LoadFromString | src/whiteshoe/level.py:27-107 | for any order in which the dict yields its keys, the loops compute exactly the load result of the definition, and the directive list of the parse |
| Level.MapRowCells | src/whiteshoe/level.py:62-63 | the enumerate loop builds exactly the row's cells |
| Level.BuildLevel | src/whiteshoe/level.py:77-107 | the entity loop over the keys of `d` in the dict's order builds exactly the level and state of the definition |
| Level.Doored | src/whiteshoe/level.py:115-118 | every 'doorway' becomes 'door', every other cell is kept |
| Level.MapToLevel | src/whiteshoe/level.py:109-136 | the map is doored in place and then each cell becomes one entity at z = 0, as the definition states |
| Level.DoorPass | src/whiteshoe/level.py:115-118 | the first loop rewrites exactly the doorways |
| Level.LevelPass | src/whiteshoe/level.py:120-133 | the second loop builds exactly the level of the definition |
| Level.LeveledKeys | src/whiteshoe/level.py:120-133 | the level's keys are the map's cells at z = 0, one fresh id per cell, and state only for ids drawn here |
| Level.LeveledAt | src/whiteshoe/level.py:120-133 | each cell holds one entity of its converted type (the three wall styles become 'wall'), with state flags exactly for those wall styles |
| Level.NoDoorwayLeft | src/whiteshoe/level.py:115-118 | after the first pass no cell is a doorway |
| ServerMaps.LiveCountIsCard | src/whiteshoe/server.py:254 | summing over distinct neighbours counts the live ones in the map |
| ServerMaps.CountMeaning | src/whiteshoe/server.py:251-254 | a cell's count is its number of live neighbours in the map, at most 8 |
| ServerMaps.RingCount | src/whiteshoe/server.py:251-254 | `neighbourhood(c)` minus `c` counts the live cells at Chebyshev distance 1..n |
| ServerMaps.Tick | src/whiteshoe/server.py:241-267 | a tick keeps the map's cells |
| ServerMaps.ScanThenApply | src/whiteshoe/server.py:245-267 | setting the births and then clearing the deaths equals the simultaneous rule applied to every cell |
| ServerMaps.QuietIsFixed | src/whiteshoe/server.py:241-261 | a map with no births and no deaths is exactly a map the tick leaves unchanged |
| ServerMaps.TickRules | src/whiteshoe/server.py:231-261 | B3/S12345: a live cell survives exactly with 1 to 5 live neighbours, a dead cell is born exactly with 3 |
| ServerMaps.CellFate | src/whiteshoe/server.py:255-267 | a born cell becomes alive, a dying cell dead, any other cell is unchanged |
| ServerMaps.Drawing | src/whiteshoe/server.py:271-278 | live cells become walls, dead ones empty floor, and the cells are the map's |
| ServerMaps.CaMazeMap | src/whiteshoe/server.py:225-280 | the world covers the X×Y rectangle and draws the automaton after at most 300 ticks; stopping before 300 means the automaton was quiet |
| ServerMaps.TickOnce | src/whiteshoe/server.py:242-267 | one turn of the while loop computes the tick and reports live exactly when the map was not quiet |
| ServerMaps.Scan | src/whiteshoe/server.py:245-261 | the scan loop collects exactly the births and deaths |
| ServerMaps.CountNeighbours | src/whiteshoe/server.py:251-254 | the neighbour loop computes the live count |
| ServerMaps.Assign | src/whiteshoe/server.py:263-267 | the listed cells take the value, the rest keep theirs |
| ServerMaps.Draw | src/whiteshoe/server.py:271-278 | the drawing loop builds exactly the drawing |
| Sync.Historify | src/whiteshoe/game.py:263-267 | the copy keeps the kind and every other attribute, with `historical` set to True |
| Sync.Decay | src/whiteshoe/game.py:256-273 | a decayed cell is no longer than before and holds only historical objects, each flagged historical |
| Sync.Decayed | src/whiteshoe/game.py:256-273 | the first pass keeps the remembered cells |
| Sync.Refreshed | src/whiteshoe/game.py:275-285 | the second pass remembers exactly the old cells plus the handled ones |
| Sync.OutOfVisionDecays | src/whiteshoe/game.py:256-273 | a remembered cell out of vision with no always-visible object keeps only its historical objects, flagged; it is reported exactly when an object is forgotten or newly flagged |
| Sync.VisibleDirtyRefreshed | src/whiteshoe/game.py:275-285 | a visible dirty cell is remembered as a copy of the world's cell, and reported exactly when memory differed from it |
| Sync.VisibleCleanKept | src/whiteshoe/game.py:246-285 | a visible cell that is not dirty keeps its memory and is not reported |
| Sync.AlwaysVisibleAppended | src/whiteshoe/game.py:287-293 | a cell holding an always-visible object is always reported, and copies of those objects are appended after what the first two passes left |
| Sync.UpdateStaysInWorld | src/whiteshoe/game.py:295 | every reported cell, and every remembered cell, is a cell of the world (the closing assertion holds) |
| Sync.UpdateKnownWorld | src/whiteshoe/game.py:243-297 | the three loops compute exactly the remembered world and the changed cells of the definition, both within the world |
| Sync.DecayPass | src/whiteshoe/game.py:256-273 | the first loop decays exactly the given cells and collects those whose decay reports |
| Sync.DecayedStep | src/whiteshoe/game.py:256-273 | one more cell of the first loop decays that cell only |
| Sync.RefreshPass | src/whiteshoe/game.py:275-285 | the second loop replaces exactly the cells that are not up to date, and reports them |
| Sync.RefreshedStep | src/whiteshoe/game.py:275-285 | one more cell of the second loop replaces that cell exactly when it is not up to date |
| Sync.AlwaysVisiblePass | src/whiteshoe/game.py:287-293 | the third loop appends always-visible copies to exactly the lit cells and reports exactly those |
| Sync.AlwaysVisibleStep | src/whiteshoe/game.py:287-293 | one more cell of the third loop changes that cell only, and only when it holds an always-visible object |
| Sync.DecayCell | src/whiteshoe/game.py:261-273 | one cell: the loop computes the decay and reports exactly when it forgets an object or flags one that was not flagged |
| Sync.DecayReportsSnoc | src/whiteshoe/game.py:261-270 | a cell's decay reports exactly when one of its objects does |
| Sync.AlwaysVisibleCopies | src/whiteshoe/game.py:288-292 | the copies are the cell's always-visible objects in cell order |
| ServerView.SeenContents | src/whiteshoe/server.py:319-338 | a cell in sight shows all its objects first, in order; a cell out of sight shows up only when it has an always-visible object, and then only those; nothing outside the world is shown |
| ServerView.ExplosionsAlwaysSeen | src/whiteshoe/server.py:332-337 | every always-visible object of the world is shown, wherever it is |
| ServerView.ExplosionInSightShownTwice | src/whiteshoe/server.py:319-338 | an explosion in sight is shown twice: once as part of its cell, once more as an always-visible object |
| ServerView.VisibleWorld | src/whiteshoe/server.py:319-338 | the two loops build exactly the visible world of the definition |
| ServerView.SquareSeen | src/whiteshoe/server.py:340-342 | vision_square shows the cells of the world within Chebyshev distance 3, plus the cells with an always-visible object; the facing is ignored |
| ServerView.AllSeen | src/whiteshoe/server.py:381-383 | vision_all shows every cell of the world, each beginning with all its objects |
| ServerView.ConeBehindDropped | src/whiteshoe/server.py:344-379 | adding the cell behind even when it is outside the world changes nothing, because the visible world drops such cells: the view equals that of the game's cone |
| ServerView.ConeSeen | src/whiteshoe/server.py:344-379 | defined exactly for a cardinal facing (KeyError otherwise), and then the visible world of the cone cells |
| ServerView.Unhistorical | src/whiteshoe/server.py:552-560 | removing the historical objects keeps exactly the objects that are not historical |
| ServerView.DecayAllHistorical | src/whiteshoe/server.py:532-543 | after the first decay only historical objects are left, so a cell in sight that shows a historical object keeps none of its memory |
| ServerView.InSightRemembered | src/whiteshoe/server.py:532-567 | a cell in sight is remembered as exactly what is seen when it shows a historical object or was not remembered; otherwise as its decayed memory followed by what is seen |
| ServerView.OutOfSightDecays | src/whiteshoe/server.py:569-579 | a remembered cell out of sight keeps only its historical objects, flagged, and is reported exactly when that forgets an object or flags one for the first time |
| ServerView.DecayReportedOnce | src/whiteshoe/server.py:537-540 | decaying a second time reports nothing: a flag is reported only the first time it is set |
| ServerView.QuietDecayKeeps | src/whiteshoe/server.py:537-543 | a cell whose decay reports nothing is left as it is |
| ServerView.ChangesReported | src/whiteshoe/server.py:528-581 | every reported cell is remembered, and a cell that is not reported is remembered exactly as before: no change goes unreported |
| ServerView.UpdateKnownWorld | src/whiteshoe/server.py:528-581 | the three loops compute exactly the remembered world and the reported cells of the definition |
| ServerView.PassesCompose | src/whiteshoe/server.py:528-581 | decaying the remembered cells in sight, merging what is seen, then decaying the cells out of sight makes up the update |
| ServerView.ChangesCompose | src/whiteshoe/server.py:528-581 | the cells the three passes report together are the reported cells of the update |
| ServerView.DecayPass | src/whiteshoe/server.py:533-543 | a decay pass decays exactly the given cells and reports those whose decay reports |
| ServerView.DecayCell | src/whiteshoe/server.py:536-543 | one cell: the loop computes the decay and reports a dropped object or a flag that was not `== True` |
| ServerView.MergePass | src/whiteshoe/server.py:545-567 | the merge loop replaces and reports exactly the cells whose new state differs from their memory |
| ServerView.MergedStep | src/whiteshoe/server.py:545-567 | one more cell of the merge changes that cell only, and only when its new state differs |
| ServerView.OneCellNeverSent | src/whiteshoe/server.py:605-652 | as written, a single remembered cell that is now empty is never sent: no packet at all, where one packet with its (x, y, -1, -1) record is intended |
| ServerView.PackingAgrees | src/whiteshoe/server.py:621-647 | with the last packet appended, the server's packing loop produces the packets of the game's `_send_player_vision` |
| ServerView.PackingSome | src/whiteshoe/server.py:621-647 | the packing loop succeeds exactly when every listed cell of the world is remembered and all its remembered objects can be packed (Packable) |
| ServerView.VisionPacketsAgree | src/whiteshoe/server.py:605-652 | the corrected server update is the game's vision update without clear_all, so the vision round trip applies to it |
| ServerView.LastPacketDropped | src/whiteshoe/server.py:605-652 | as written, the packets returned are the intended packets minus exactly the last one, which always exists |
| GameRules.FirstEqual | src/whiteshoe/game.py:136 | the first position holding an entity equal to `o`, None exactly when there is none |
| GameRules.Remove | src/whiteshoe/game.py:136 | `list.remove`: None (ValueError) exactly when no entity equals `o`; otherwise the list minus one such entity, one shorter |
| GameRules.SetObj | src/whiteshoe/game.py:446 | an in-place change of an attribute dict shows at every position holding that object, and nowhere else |
| GameRules.CellMatchesMembers | src/whiteshoe/game.py:389-393 | a cell contributes exactly its entities of the requested kinds, paired with the cell |
| GameRules.MatchesMembers | src/whiteshoe/game.py:387-395 | `find_objs` lists exactly the entities of the requested kinds, each with its cell |
| GameRules.FindIn | src/whiteshoe/game.py:401-414 | a player found is one of the listed player entities and carries the requested player_id |
| GameRules.FindInNotFound | src/whiteshoe/game.py:401-414 | PlayerNotFound exactly when every listed player carries a different player_id |
| GameRules.Unblocked | src/whiteshoe/game.py:108-110 | the candidate spawn cells are exactly the cells of the world with no solid object |
| GameRules.Affordable | src/whiteshoe/game.py:515-528 | the loop's power is between 0 and the requested power |
| GameRules.AffordableIsStrongest | src/whiteshoe/game.py:515-528 | the power fired is the strongest the ammo pays for: its square is covered and every stronger power up to the request costs more |
| GameRules.AffordableZero | src/whiteshoe/game.py:522-527 | nothing is fired exactly when the ammo is below 1 |
| GameRules.AffordableCost | src/whiteshoe/game.py:530 | the ammo left after a shot is never negative |
| GameRules.ScoreDelta | src/whiteshoe/game.py:145-150 | a death scores -1 when the victim or the environment is responsible, +1 otherwise |
| GameRules.EventMsgs | src/whiteshoe/game.py:644-682 | at most one message per event |
| GameRules.EventMsgsReversed | src/whiteshoe/game.py:648-665 | popping from the end: every damage or death event gives one message, newest first |
| Client.UnpackAll | src/whiteshoe/client.py:481-495 | the attribute table unpacks exactly when each attribute does, entry by entry |
| Client.PyIndex | src/whiteshoe/client.py:503 | Python list indexing: defined exactly for -len <= i < len, the plain element for a non-negative index |
| Client.Run | src/whiteshoe/client.py:497-513 | the record loop only ever adds cells to the cleared set and to the remembered world |
| Client.RunStep | src/whiteshoe/client.py:497-513 | one record: a bad attribute index stops the loop; otherwise the cell is cleared on its first record, a -1 type only clears, an unknown type stops after clearing, and any other type appends the decoded object |
| Client.RunLeavesOthers | src/whiteshoe/client.py:497-513 | a cell no record names keeps what it held |
| Client.FindInCellSpec | src/whiteshoe/client.py:443-453 | a hit is an object of the cell that is the player's own; a miss means no object of the cell is; KeyError only on a player object without a number |
| Client.FindInCellsSpec | src/whiteshoe/client.py:443-453 | what `find_me` finds is the player's own object in a remembered cell; PlayerNotFound only when no remembered object is the player; with every player numbered no KeyError |
| Client.FindMeSpec | src/whiteshoe/client.py:443-453 | over every remembered cell: found means a known player id and its own object; not found exactly when the id is unknown or no object is the player |
| Client.VerticalInfobar | src/whiteshoe/client.py:141-153 | the viewport and a 20-column infobar split the screen side by side, without overlap and covering it |
| Client.HorizontalInfobar | src/whiteshoe/client.py:155-169 | the viewport and a 2-line infobar split the screen one above the other, without overlap and covering it |
| Client.ClientNetwork.constructor | src/whiteshoe/client.py:341-381 | starts with no remembered cells, no game, no player id, no vision mode and the keepalive timer at 0 |
| Client.ClientNetwork.SendPackets | src/whiteshoe/client.py:423-427 | every packet is sent and the keepalive timer restarts; nothing else changes |
| Client.ClientNetwork.GameStatus | src/whiteshoe/client.py:518-525 | JOINED records the game, player id and vision mode; LEFT forgets the game only; any other status changes nothing |
| Client.ClientNetwork.FindMe | src/whiteshoe/client.py:443-453 | the nested loops compute `find_me` over the remembered world in its iteration order |
| Client.ClientNetwork.VisionUpdate | src/whiteshoe/client.py:463-513 | the remembered world becomes the decoding of the packet (a failure part-way leaves the cells already rewritten); nothing else changes |
| GameEngine.Carried | src/whiteshoe/game.py:161-166 | the respawned player keeps every attribute of its own, and takes the victim's `name` and `team` where the victim had them |
| GameEngine.Updated | src/whiteshoe/game.py:446 | an in-place update of an object's attribute dict changes no cell's place in the world |
| GameEngine.MinesRemove | src/whiteshoe/game.py:575 | removing a mine from a cell leaves exactly one mine fewer |
| GameEngine.RemoveKeeps | src/whiteshoe/game.py:575 | `list.remove` keeps every object of another kind |
| GameEngine.RemoveKeepsHolds | src/whiteshoe/game.py:575 | removing an object that is not a player keeps the players of the cell |
| GameEngine.MinesSetObj | src/whiteshoe/game.py:587 | turning an object into something other than a mine never adds a mine |
| GameEngine.FirstMine | src/whiteshoe/game.py:552-557 | the position of the first mine of a cell; None exactly when the cell has none |
| GameEngine.NoMineCounted | src/whiteshoe/game.py:552-557 | a cell has no mine exactly when its mine count is 0 |
| GameEngine.MineWalk | src/whiteshoe/game.py:552-575 | as written: the walk over the live list removes mines by position, and never grows the list |
| GameEngine.SecondMineSkipped | src/whiteshoe/game.py:552-575 | as written, a player stepping onto two mines in a row sets off only the first; the second stays armed |
| GameEngine.ShotPaid | src/whiteshoe/game.py:502-530 | a shot never costs more than the ammo; a kinetic shot is the strongest power p <= arg that the ammo pays, at p squared; nothing is fired only when the ammo is short of the slime cost, or below 1 for a bullet |
| GameEngine.BlastArea | src/whiteshoe/game.py:755-757 | the cells an explosion of `size` reaches are exactly the cells of the world within Chebyshev distance size - 1 |
| GameEngine.AppendAll | src/whiteshoe/game.py:755-763 | the loop appends an explosion to exactly the listed cells that are in the world |
| GameEngine.HoodArea | src/whiteshoe/game.py:755-757 | the listed neighbourhood, cut to the world, is the blast area |
| GameEngine.ExplodedReach | src/whiteshoe/game.py:751-764 | a cell in the blast area keeps its objects and gains one explosion of damage size squared at its end; every other cell is untouched |
| GameEngine.ExplodedKeeps | src/whiteshoe/game.py:762 | an explosion only appends: the cell keeps its objects and its mines |
| GameEngine.Bumped | src/whiteshoe/game.py:1047-1049 | the ammo bonus keeps an object's identity and kind |
| GameEngine.BumpedOnlyAmmo | src/whiteshoe/game.py:1047-1049 | the bonus changes ammo and nothing else: a player's ammo grows by exactly 5, every other attribute stays, and other objects are untouched |
| GameEngine.BumpedSolid | src/whiteshoe/game.py:1047-1049 | the bonus leaves a cell solid exactly when it was |
| GameEngine.BumpCell | src/whiteshoe/game.py:1047-1049 | the loop over one cell succeeds exactly when every player there has integer ammo, and then gives the bumped cell |
| GameEngine.BumpAll | src/whiteshoe/game.py:1047-1049 | the loop over the world succeeds exactly when every player has integer ammo, and then gives the bumped world |
| GameEngine.BumpedNewPlayer | src/whiteshoe/game.py:1027-1052 | a new free-for-all player, after the bonus, has the free-for-all starting attributes |
| GameEngine.BumpedSpawnedAt | src/whiteshoe/game.py:1045-1051 | the bonus keeps the freshly spawned player last in its cell, with nothing solid before it |
| GameEngine.MinesKeepSpawnedAt | src/whiteshoe/game.py:1035-1042 | a mine lands only on a cell with nothing solid, so never on the new player's cell |
| GameEngine.PickSpawn | src/whiteshoe/game.py:107-129 | a spawn happens exactly when some cell holds nothing solid; the cell chosen is such a cell and the player faces some direction |
| GameEngine.PickMineCells | src/whiteshoe/game.py:1031-1039 | two mines are placed exactly when there is room for both; the two cells are different and hold nothing solid |
| GameEngine.FoundInWorld | src/whiteshoe/game.py:133-136 | a player that `_find_player` finds is an entity of its cell, so removing it succeeds |
| GameEngine.WithoutPlayer | src/whiteshoe/game.py:133-140 | removing a player keeps the world's cells |
| GameEngine.CollectMatches | src/whiteshoe/game.py:387-395 | the loops of `find_objs` compute the matching entities, cells in dict order, objects in list order |
| GameEngine.FreeForAllReturnedCoord | src/whiteshoe/game.py:1047-1051 | as written, the coordinate returned is the cell of the last player `find_objs` lists, not the spawn cell |
| GameEngine.FreeForAllReturnsOtherCell | src/whiteshoe/game.py:1027-1051 | with a second player in a cell listed after the spawn cell, the free-for-all spawn reports that other player's cell |
| GameEngine.Enumerate | src/whiteshoe/game.py:349 | a set's iteration order lists each element once |
| GameEngine.Addressed | src/whiteshoe/game.py:384 | every vision packet is addressed to the player, in order |
| GameEngine.Facing | src/whiteshoe/game.py:320 | the facing read off a player is the constant its `direction` attribute holds |
| GameEngine.SharersAsWritten | src/whiteshoe/game.py:1064-1072 | as written, every other joined player found on the map shares its vision, whatever its team |
| GameEngine.TeammatesFilter | src/whiteshoe/game.py:1056-1073 | the intended sharers are exactly the players the written loop adds that are on the viewer's team, and both raise in the same cases |
| GameEngine.EnemySharesVision | src/whiteshoe/game.py:1056-1073 | a two-team world where the written loop gives the viewer an enemy's vision and the intended one gives none |
| GameEngine.UnionOfMembers | src/whiteshoe/game.py:1064-1073 | a cell is in the shared view exactly when some sharer sees it |
| GameEngine.JoinedAnnounced | src/whiteshoe/game.py:205-234 | when every player has a name, each player hears once of the newcomer, the newcomer hears once of each other player, and 2n-1 packets go out |
| GameEngine.JoinedStaysNone | src/whiteshoe/game.py:205-234 | once a player without a name makes the announcement loop raise, the whole loop does |
| GameEngine.JoinName | src/whiteshoe/game.py:178-179 | a player's name is never empty: a given non-empty name is kept, otherwise "Unnamed" |
| GameEngine.EnrolledBy | src/whiteshoe/game.py:169-184 | registration, then a Spawned state, then the naming of the new player is Enrolled |
| GameEngine.SpawnedMoves | src/whiteshoe/game.py:97-131 | a Spawned state differs from the old one only in the world, the dirty sets and the identity counter, which only grows; nothing is marked clean |
| GameEngine.JoinedBy | src/whiteshoe/game.py:168-184 | naming a player spawned after the registration leaves JoinedFacts: `pid` joins the players with an empty remembered world and its name and team, the scores are due, and the named player is the last object of its cell |
| GameEngine.ArmedMined | src/whiteshoe/game.py:1034-1049 | the mines change no player, so every player can take the bonus after them exactly when it could before |
| GameEngine.JoinedKnown | src/whiteshoe/game.py:171-173 | a joined player always has a remembered world inside the map and an attribute dict |
| GameEngine.RememberedConsistent | src/whiteshoe/game.py:243-297 | replacing a remembered world by one inside the map keeps the game state consistent |
| GameEngine.FlushedWorlds | src/whiteshoe/game.py:608-637 | the flush keeps the set of players with remembered worlds |
| GameEngine.FlushedWorldsAt | src/whiteshoe/game.py:608-637 | after the flush, a player on the map remembers the update for the cells it saw; every other player's memory is unchanged |
| GameEngine.FlushedNext | src/whiteshoe/game.py:608-637 | handling the next player updates that player's memory alone, starting from its memory before the flush |
| GameEngine.FlushedWorldsFrame | src/whiteshoe/game.py:608-637 | what a player not yet handled saw has no effect on the players already handled |
| GameEngine.FlushedStart | src/whiteshoe/game.py:608 | before the first player nothing has been handled |
| GameEngine.FlushedDone | src/whiteshoe/game.py:608-640 | after the last player, exactly the players on the map have been handled, and the state differs only in the remembered worlds |
| GameEngine.FlushedUpToNext | src/whiteshoe/game.py:608-637 | one pass keeps the loop's invariant: a player off the map changes nothing, one on the map has its memory updated |
| GameEngine.RememberedAt | src/whiteshoe/game.py:630-633 | updating one player's memory does not depend on other players' memories |
| GameEngine.UpdatedLast | src/whiteshoe/game.py:183-184 | an object updated in place stays last in its cell |
| GameEngine.SettledInRange | src/whiteshoe/game.py:717-720 | the catch-up loop adds one whole step per pass and stops once the timer is no longer negative: a late timer ends in [0, step), and no pass runs when it was not late |
| GameEngine.HopOnce | src/whiteshoe/game.py:720-721 | one pass means one hop fewer to go, with the same final timer |
| GameEngine.BulletSpeed | src/whiteshoe/game.py:711-712 | a bullet's speed, where its size is in the table, is positive |
| GameEngine.SlimeBulletSpeed | src/whiteshoe/game.py:802-803 | a slime bullet's speed, where its size is in the table, is positive |
| GameEngine.Lift | src/whiteshoe/game.py:720-724 | a bullet leaving its cell keeps the world's cells |
| GameEngine.Land | src/whiteshoe/game.py:746 | a bullet entering a cell is its last object |
| GameEngine.Landed | src/whiteshoe/game.py:720 | a flight whose timer is paid off ends in the air |
| GameEngine.HeadingTimed | src/whiteshoe/game.py:721 | updating the timer keeps the bullet's heading |
| GameEngine.Landing | src/whiteshoe/game.py:744-748 | a pass that lands in the cell ahead keeps the flight aloft and the state consistent |
| GameEngine.Halting | src/whiteshoe/game.py:731-743 | a pass that finds the cell ahead off the world or solid ends the flight, vanished or blocked |
| GameEngine.Relocated | src/whiteshoe/game.py:720-748 | moving objects and marking cells keeps the game state consistent |
| GameEngine.Oids | src/whiteshoe/game.py:775-780 | the identities of a list of hits, in order |
| GameEngine.FreshHitsNew | src/whiteshoe/game.py:775-780 | an explosion hits only blowable objects of its cell that it has not hit before |
| GameEngine.FreshHitsDistinct | src/whiteshoe/game.py:775-780 | an explosion's record of hits never repeats an object |
| GameEngine.FreshHitsCover | src/whiteshoe/game.py:775-780 | after a tick, the explosion has hit every blowable object of its cell |
| GameEngine.Current | src/whiteshoe/game.py:775 | the object as it now stands in the cell keeps its identity |
| GameEngine.SlimedConsistent | src/whiteshoe/game.py:843-854 | a newborn slime keeps the state consistent and marks its cell |
| GameEngine.Openings | src/whiteshoe/game.py:887-905 | a slime spreads only to a cardinal neighbour in the world, not yet reached by its family, holding nothing airtight |
| GameEngine.SpreadGrows | src/whiteshoe/game.py:907-919 | a spread keeps the state consistent and grows its family's reach by exactly one cell |
| GameEngine.ExhaustedNeverDiesAsWritten | src/whiteshoe/game.py:875-897 | as written, an exhausted slime ticked every 50 ms with a 100 ms spread period comes back to the same timers every two ticks, so it never dies |
| GameEngine.RunTwice | src/whiteshoe/game.py:875-897 | two ticks that come back to the same timers repeat forever |
| GameEngine.ExhaustedDies | src/whiteshoe/game.py:875-897 | as intended, an exhausted slime with death time d is gone once its ticks add up to more than d |
| GameEngine.ExhaustedTickRead | src/whiteshoe/game.py:875-897 | the timers read off a slime's attributes tick as ExhaustedTick says: below zero it is gone, otherwise the death time is set only once |
| GameEngine.ExpiredConsistent | src/whiteshoe/game.py:877-880 | an expired slime leaving its cell keeps the state consistent and the slime families |
| GameEngine.DamageKeepsFamilies | src/whiteshoe/game.py:950-993 | damage never changes the slime families' reach or hit records |
| GameEngine.LavaStep | src/whiteshoe/game.py:928-936 | the clock splits into whole LAVA_TIME periods plus a remainder in [0, LAVA_TIME) |
| GameEngine.LavaRunExact | src/whiteshoe/game.py:921-946 | however the time is cut into ticks, a pool burns once per whole LAVA_TIME it has been ticked for, and its clock is the remainder |
| GameEngine.DivisionUnique | src/whiteshoe/game.py:933-936 | a quotient and remainder in range are the ones `//` and `%` give |
| GameEngine.MultipleApart | src/whiteshoe/game.py:933-936 | a non-zero multiple of d is at least d from zero |
| GameEngine.FinishedLasting | src/whiteshoe/game.py:985-993 | after the finishing step a cell always holds a lasting object, with its earlier objects still at its end |
| GameEngine.FinishedMoves | src/whiteshoe/game.py:985-993 | the finishing step keeps the state's shape |
| GameEngine.Damaged | src/whiteshoe/game.py:950-982 | damage short of killing a player keeps the world's cells and the slime families |
| GameEngine.Destroyed | src/whiteshoe/game.py:966-976 | destroying an object keeps the world's cells and the slime families |
| GameEngine.DestroyedLeaves | src/whiteshoe/game.py:966-993 | a destroyed object other than a player or mine leaves its cell, one object fewer, and an EMPTY is inserted first when only temporary objects remain |
| GameEngine.MournedConsistent | src/whiteshoe/game.py:142-157 | a kill's bookkeeping keeps the state consistent |
| GameEngine.Reworld | src/whiteshoe/game.py:950-993 | a new world over the same cells keeps the state consistent |
| GameEngine.PlacedConsistent | src/whiteshoe/game.py:538 | placing an object keeps the state consistent and makes it the last of its cell |
| GameEngine.MarkedConsistent | src/whiteshoe/game.py:592-596 | marking cells of the world and players dirty keeps the state consistent |
| GameEngine.MineLeaves | src/whiteshoe/game.py:575 | a triggered mine leaves its cell: one mine fewer, the players stay |
| GameEngine.UpdatedHolds | src/whiteshoe/game.py:587 | an update that leaves a player a player keeps the players of the cell |
| GameEngine.BaseGame.constructor | src/whiteshoe/game.py:22-59 | a new game has the generated world, no players, no remembered worlds, no events, no scores, nothing dirty and a stopped stopwatch |
| GameEngine.BaseGame.FindObjs | src/whiteshoe/game.py:387-395 | `find_objs` lists every entity of the requested kinds with its cell, in dict order and list order |
| GameEngine.BaseGame.FindPlayer | src/whiteshoe/game.py:401-414 | `_find_player` finds the first player carrying the id, or reports it missing |
| GameEngine.BaseGame.RemovePlayer | src/whiteshoe/game.py:133-140 | the player leaves its cell, which becomes dirty, exactly when it is found; otherwise nothing changes |
| GameEngine.BaseGame.BaseSpawn | src/whiteshoe/game.py:97-131 | a living player of that id is removed first; the new player, facing some direction with the starting attributes, is the last object of a cell that held nothing solid |
| GameEngine.BaseGame.PlaceNewPlayer | src/whiteshoe/game.py:107-131 | a player is placed exactly when some cell holds nothing solid; otherwise nothing changes |
| GameEngine.BaseGame.PlaceMines | src/whiteshoe/game.py:1031-1042 | mines of size 1 and 2 are placed on two different cells holding nothing solid, exactly when there is room |
| GameEngine.BaseGame.BumpAmmo | src/whiteshoe/game.py:1045-1049 | every player gets 5 more ammo and its cell becomes dirty, exactly when every player has integer ammo |
| GameEngine.BaseGame.SpawnPlayer | src/whiteshoe/game.py:97-131 | Spawned: `pid` is not the id of an object without one, and the new player, facing some direction with the starting attributes of the mode, is appended to a cell that holds nothing solid once a living player of that id is gone; the state is exactly the base spawn (BaseSpawned: that player removed, the new one appended with the next identity, both cells and the player dirty), and in free-for-all then exactly the two mines on two different free cells (Mined) and the ammo bonus for every player (Bonused); where it fails, SpawnRaises names the cause: an id held by an object without one, no free cell, or in free-for-all no room for two mines or some player's ammo that cannot take the bonus |
| GameEngine.BaseGame.FreeForAllExtras | src/whiteshoe/game.py:1027-1052 | fails exactly when there are no two free cells for the mines or some player's ammo cannot take the bonus; otherwise the state is exactly the two mines on two different free cells followed by the bonus (Bonused of Mined), and the new player, with the bonus, is still last in its cell |
| GameEngine.BaseGame.MakeExplosion | src/whiteshoe/game.py:751-764 | the new state is the explosion's: see ExplodedReach |
| GameEngine.BaseGame.KillPlayer | src/whiteshoe/game.py:142-166 | Killed: the player is found (a missing one fails, with nothing changed), removed from its cell (WithoutPlayer, the cell marked dirty) and mourned (the scores move by ScoreDelta, the victim forgets its world, a death event is queued), which gives `before`; from there it is Respawned: the state is a Spawned one whose new player then carries the victim's name and team. From `before` the respawn changes only the world, the dirty sets and the identity counter; a failure is KillRaises: the player is missing, or the respawn from the mourned state (Bereaved) raises as SpawnRaises says |
| GameEngine.BaseGame.Respawn | src/whiteshoe/game.py:159-166 | Respawned: the state is a Spawned one whose new player then takes `carry`'s name and team (Carried), in place; only the world, the dirty sets and the identity counter change; where the spawn fails, SpawnRaises names why |
| GameEngine.BaseGame.CarryOver | src/whiteshoe/game.py:159-166 | only the new player object changes: it takes the victim's name and team (Carried), in place, and stays the last object of its cell |
| GameEngine.BaseGame.DamageObject | src/whiteshoe/game.py:950-993 | a hit that does not kill succeeds exactly when it is Damaged in a cell of the world; every successful hit is DamageDone: the cell ends holding a lasting object; a non-lethal hit is Damaged and then Finished; a lethal hit on a player writes the lowered hp back (HpWritten), kills the player (Killed: removed, mourned, respawned carrying its name and team) and is then Finished; a failure is DamageRaises: the coordinate is off the world, a lethal hit has no player id or its kill raises (KillRaises), or a hit that does not kill is not Damaged |
| GameEngine.BaseGame.Finish | src/whiteshoe/game.py:984-993 | a cell left holding only temporary objects gets an EMPTY in front of them, so it always ends with a lasting object; nothing but the world, the dirty cells and the identity counter changes; fails, changing nothing, outside the world |
| GameEngine.BaseGame.DamageToDeath | src/whiteshoe/game.py:966-969 | a lethal hit on an object without a player id fails; otherwise the lowered hp is written back (HpWritten) and the player is Killed from there: removed, mourned and respawned carrying its name and team; a failure has no player id or a kill that raises (KillRaises, from HpWritten) |
| GameEngine.BaseGame.Hurt | src/whiteshoe/game.py:962-982 | the state is exactly Damaged's, defined exactly when the source does not raise |
| GameEngine.BaseGame.Destroy | src/whiteshoe/game.py:970-976 | the state is exactly Destroyed's, defined exactly when the source does not raise |
| GameEngine.BaseGame.Look | src/whiteshoe/game.py:445-449 | the player faces the new direction; its cell and the player are marked dirty, and it raises only without a player id |
| GameEngine.BaseGame.Fire | src/whiteshoe/game.py:498-540 | the shooter pays for the shot and the bullet, owned by the shooter and heading its way, is appended to its cell; a shot the ammo cannot pay changes nothing |
| GameEngine.BaseGame.Move | src/whiteshoe/game.py:451-496 | Moved: the player leaves its cell; a non-direction raises; then Stepped: a blocked step puts the player back at the end of its cell and, when the blocking cell holds players, each takes STAB_DAMAGE on the mover's account in turn (HitTurns, from the state with the player back); a free step moves it to the end of the new cell, marks both cells and the player, and then sets off every mine there one after the other, each disarmed for its DisarmBonus or exploding on the mover's account (MinesSetOff from Entered); a failure is a player missing from its cell, an argument that is not a direction, or StepRaises |
| GameEngine.BaseGame.StepTo | src/whiteshoe/game.py:466-496 | the step after the player left its cell is Stepped: blocked (Bounce) or free (Enter, whose mines go off as MinesSetOff states); a failure is StepRaises: a blocked step whose stabbing raises (a mover without an id, or HitHalts), or a free step by a mover without an id or a facing, or into a cell holding a mine |
| GameEngine.BaseGame.Bounce | src/whiteshoe/game.py:471-484 | the player returns to the end of its cell; with no one to stab nothing else changes; otherwise the players of the blocking cell are stabbed in turn on the mover's account (HitTurns, from that state to the new one), and the blocking cell becomes dirty; a failure needs players in the blocking cell, and a mover without an id or a stab that raises (HitHalts, from the state with the player back) |
| GameEngine.BaseGame.Enter | src/whiteshoe/game.py:486-496 | the player is appended to the new cell and both cells and the player are dirty (Entered); from there the mines of the cell go off in turn until none is left (MinesSetOff); a failure needs a mine in the new cell |
| GameEngine.BaseGame.Stab | src/whiteshoe/game.py:475-484 | a cell without players is not touched; otherwise each player it held (PlayersIn) takes STAB_DAMAGE of the stab type on the mover's account in turn, as it then stands (HitTurns from the old state to the new), and the cell becomes dirty; a failure needs players in the cell, and a mover without an id or a stab that raises (HitHalts) |
| GameEngine.BaseGame.HitEach | src/whiteshoe/game.py:475-484 | each victim in turn, as it stands when its turn comes, is DamageDone and the cell marked dirty: some trace of HitInTurn runs from the old state to the new (HitTurns); a failure is HitHalts: some victim's damage raises (DamageRaises) after the turns of those before it |
| GameEngine.BaseGame.HitAll | src/whiteshoe/game.py:475-484 | over victims that are not empty, the turns of all of them (HitTurns) take the old state to the new, and the cell is dirty; a failure is HitHalts |
| GameEngine.BaseGame.HitOne | src/whiteshoe/game.py:480-483 | one turn of HitEach is a HitStep: the victim as it now stands is DamageDone, then the cell is marked dirty; a failure is DamageRaises for the victim as it now stands |
| GameEngine.BaseGame.MarkDirty | src/whiteshoe/game.py:592-593 | the cell joins the dirty cells and nothing else changes |
| GameEngine.BaseGame.HitNext | src/whiteshoe/game.py:475-484 | with the turns of all victims but the last taking `s0` to the current state, the last victim's HitStep makes the turns of all of them take `s0` to the new state; the cell is dirty; a failure is HitHalts from `s0`, at the last victim |
| GameEngine.HaltsLonger | src/whiteshoe/game.py:475-484 | a stop of the hit loop within all victims but the last is a stop within all of them |
| GameEngine.HitLast | src/whiteshoe/game.py:475-484 | a trace over all victims but the last and the last victim's turn make a trace over all of them |
| GameEngine.HitTurnsLast | src/whiteshoe/game.py:475-484 | the turns of all victims but the last, from `s0`, and the last victim's turn are the turns of all of them, from `s0` |
| GameEngine.HitTraceLast | src/whiteshoe/game.py:475-484 | a trace over all victims but the last and the last victim's turn give the turns of all of them from the trace's start |
| GameEngine.PlayersIn | src/whiteshoe/game.py:475-479 | the players of a cell, each one of its entities; none exactly when the cell holds no player |
| GameEngine.BaseGame.MoveInto | src/whiteshoe/game.py:542-590 | as intended, the first mine of the new cell goes off again and again (MinesRun of MineGoes turns), each disarmed with the player's ammo raised by DisarmBonus or exploding with its size on the player's account, until none is left; the player stays in the cell; a cell without mines is left alone |
| GameEngine.BaseGame.TriggerMine | src/whiteshoe/game.py:557-590 | MineGoes: the mine at position i leaves the cell (MineLeft), then either the player's ammo rises by DisarmBonus of its size and the player object is updated in place (Disarmed), or an explosion of its size is made on the player's id (Detonated); the player stays and the mine count falls; a mine with no chance for the step or no size fails (MineStuck); any failure is MineStuck, or a player without ammo or an id, or a size that is not a number |
| GameEngine.BaseGame.GoOff | src/whiteshoe/game.py:576-590 | the draw of a mine that has left the cell: Disarmed or Detonated on success; a failure is a player without ammo or an id, or a size that is not a number |
| GameEngine.BaseGame.SetOffFirst | src/whiteshoe/game.py:551-590 | one loop turn: the first mine of the cell goes off, extending the run of MineGoes turns (MinesRun) |
| GameEngine.MinesGoLast | src/whiteshoe/game.py:551-590 | a trace of mine turns extended by the turn of the next first mine is a trace |
| GameEngine.MinesRunNext | src/whiteshoe/game.py:551-590 | a run of mine turns followed by the next first mine's turn is a run |
| GameEngine.MinesRunStart | src/whiteshoe/game.py:551 | before any mine goes off, the run is empty |
| GameEngine.MinesRunBy | src/whiteshoe/game.py:551-590 | a trace of mine turns is a run from its first state to its last |
| GameEngine.MinesDone | src/whiteshoe/game.py:551-590 | a run that leaves no mine in the cell is MinesSetOff |
| GameEngine.BaseGame.Detonate | src/whiteshoe/game.py:589-590 | a mine that goes off explodes with its size on the player's account; the cell keeps its players and gains no mine |
| GameEngine.BaseGame.Disarm | src/whiteshoe/game.py:578-587 | a disarmed mine pays the player 1, 5 or 0 ammo by its size, exactly when the player has integer ammo; only the player object changes |
| GameEngine.BaseGame.EventCheck | src/whiteshoe/game.py:644-682 | the packets are the event messages of the queue, and the queue is emptied |
| GameEngine.BaseGame.CanSee | src/whiteshoe/game.py:319-329 | the cells seen are those the vision function gives for the player's facing; it raises without a facing or when they leave the world |
| GameEngine.BaseGame.TeamCanSee | src/whiteshoe/game.py:1056-1073 | corrected: the viewer's own cells plus those of every teammate on the map |
| GameEngine.BaseGame.FlushPlayer | src/whiteshoe/game.py:609-637 | a player off the map gets nothing; one on the map has its memory updated with what it sees; every packet goes to that player |
| GameEngine.BaseGame.SendUpdate | src/whiteshoe/game.py:627-637 | the player's memory is updated, and the packets are the vision update of exactly the changed cells |
| GameEngine.BaseGame.FlushDirty | src/whiteshoe/game.py:598-642 | with nothing dirty nothing happens; otherwise every player on the map gets its update, memories become FlushedWorlds, and both dirty sets are cleared |
| GameEngine.BaseGame.FlushNext | src/whiteshoe/game.py:608-637 | one pass of the flush keeps its loop invariant |
| GameEngine.BaseGame.Report | src/whiteshoe/game.py:441-443 | the events are reported first, then the vision updates |
| GameEngine.BaseGame.PlayerAction | src/whiteshoe/game.py:419-443 | unknown constants, a player off the map or a non-command raise with nothing changed; otherwise the command runs and the outcome is reported |
| GameEngine.BaseGame.PlayerJoin | src/whiteshoe/game.py:168-241 | `joined` is Enrolled: the player is registered, spawned exactly as Spawned says and named (JoinNamed); then it is sent the game's description with the game-info status, every JOINED announcement (JoinedMsgs) and what Reported says, and it is the last of the players |
| GameEngine.BaseGame.Enrol | src/whiteshoe/game.py:169-184 | Enrolled: registration (Registered), then a Spawned state, then the new player named (JoinNamed), which leaves JoinedFacts; where the spawn fails, SpawnRaises names why |
| GameEngine.BaseGame.NameNewcomer | src/whiteshoe/game.py:177-184 | the state is JoinNamed: the new player object and the player's attributes take the name ("Unnamed" when none is given) and the team (0 when none is given), and the scores are due |
| GameEngine.BaseGame.Welcome | src/whiteshoe/game.py:186-241 | the newcomer is sent the game's description, then every JOINED announcement (JoinedMsgs), then what Reported says; the players do not change |
| GameEngine.BaseGame.Announce | src/whiteshoe/game.py:205-234 | the announcement loop gives JoinedMsgs |
| GameEngine.BaseGame.PlayerLeave | src/whiteshoe/game.py:300-317 | the player leaves the map and is forgotten everywhere, then the outcome is reported |
| GameEngine.BaseGame.Drop | src/whiteshoe/game.py:300-312 | the player is removed from the map and from the player lists, exactly when its id can be looked up |
| GameEngine.BaseGame.Handle | src/whiteshoe/game.py:72-95 | an id not in the game gets the not-in-game error and nothing changes; an action is `player_action`; messages and key-values get no answer |
| GameEngine.BaseGame.Fly | src/whiteshoe/game.py:717-748 | the flight loop keeps the state's shape and gives the flight the Flew predicate describes; a failure needs a timer below zero |
| GameEngine.BaseGame.FlyStep | src/whiteshoe/game.py:717-748 | one pass adds a step to the timer and either keeps the flight aloft or ends it |
| GameEngine.BaseGame.TickBullet | src/whiteshoe/game.py:709-748 | the bullet flies at its speed; when its next hop reaches a solid cell it explodes at that solid cell with its size on its owner's account; a failure has no speed or start time, or a flight whose timer is below zero, or a blocked bullet without an owner |
| GameEngine.BaseGame.Burst | src/whiteshoe/game.py:736-740 | a blocked bullet explodes where it stopped, with its size, on its owner's account; it fails exactly when the bullet has no owner |
| GameEngine.BaseGame.TickBullets | src/whiteshoe/game.py:706-749 | every bullet flies; the state keeps its shape |
| GameEngine.BaseGame.Strike | src/whiteshoe/game.py:775-785 | no hits change nothing; otherwise each fresh hit in turn, as it then stands, takes the explosion's `_damage` of the explosion type on its `_responsible`'s account (HitTurns from the old state to the new), and the cell becomes dirty; a failure is StrikeRaises: it has hits, and no `_damage` or `_responsible`, or a hit that raises (HitHalts) |
| GameEngine.BaseGame.TickExplosion | src/whiteshoe/game.py:768-791 | an explosion's fresh hits take its damage in turn (HitTurns, from the old state to `hit`); then it records them and loses the elapsed time, in place (`struck`), and leaves its cell, marked dirty, once its time is below zero; a failure has no clock or no `_damaged` list, or is StrikeRaises, or comes after the hits (from `hit` to `struck`) when the burnt explosion cannot leave its cell |
| GameEngine.BaseGame.TickExplosions | src/whiteshoe/game.py:766-791 | every explosion takes its tick; the state stays consistent |
| GameEngine.BaseGame.TickSlimeBullet | src/whiteshoe/game.py:796-854 | a slime bullet flies at its speed; blocked, a new slime is born in the cell it left; a failure has no speed or start time, or a flight whose timer is below zero, or a blocked slime bullet without an owner or a size |
| GameEngine.BaseGame.SlimeHits | src/whiteshoe/game.py:857-870 | the damage pass only adds to the family's hit record, which never repeats an object |
| GameEngine.BaseGame.SlimeHit | src/whiteshoe/game.py:866-870 | one hit of a slime is DamageDone with SLIME_DAMAGE of the slime type on the owner's account (giving `mid`), and then exactly the cell marked dirty; no slime family's spread or hit record changes; a failure is DamageRaises |
| GameEngine.BaseGame.SpreadOnce | src/whiteshoe/game.py:886-919 | one pass only grows the family's reach, never beyond its limit, and only into an opening |
| GameEngine.BaseGame.SlimeSpread | src/whiteshoe/game.py:882-919 | the spreading loop keeps the reach within the limit and settles the spread timer |
| GameEngine.BaseGame.SlimeTimers | src/whiteshoe/game.py:874-919 | the death time runs down by the elapsed time and a slime below zero expires; otherwise the spread timer runs down, and an exhausted slime carries the timers of the intended tick (ExhaustedTick) |
| GameEngine.BaseGame.SettleSlime | src/whiteshoe/game.py:874-897 | for a slime whose family has used all its spreads, the new state is the one the corrected exhausted tick describes, and the hit record is untouched |
| GameEngine.BaseGame.Expire | src/whiteshoe/game.py:877-880 | the slime leaves its cell exactly as Expired says |
| GameEngine.BaseGame.Respread | src/whiteshoe/game.py:882-919 | a slime still alive runs the spreading loop and carries its new timers |
| GameEngine.BaseGame.TickSlime | src/whiteshoe/game.py:857-919 | the damage pass, then the timers, for one slime |
| GameEngine.BaseGame.TickSlimes | src/whiteshoe/game.py:793-919 | every slime bullet, then every slime, takes its tick; the state stays consistent |
| GameEngine.BaseGame.LavaBurn | src/whiteshoe/game.py:937-946 | the walk over the live cell list is Burned from the old state to the new: each position in turn, an object equal to the pool is passed over and any other takes the lava damage from the environment (DamageDone); the walk ends past the list's end; a pool alone in its cell burns nothing and changes nothing |
| GameEngine.BaseGame.BurnFrom | src/whiteshoe/game.py:937-945 | the walk from position `i` is Burned from `i`, ends past the list's end, and fails where the budget runs out first |
| GameEngine.BaseGame.BurnOn | src/whiteshoe/game.py:937-945 | the walk from a position inside the list is Burned from there: a pool that is all lava from there changes nothing and succeeds exactly when the steps left reach the list's end |
| GameEngine.BaseGame.BurnAt | src/whiteshoe/game.py:938-945 | one position of the walk is a BurnStep; the pool itself is passed over; a failure is DamageRaises for the object at that position |
| GameEngine.BurnFirst | src/whiteshoe/game.py:937-945 | a step at position k followed by a walk from k+1 is a walk from k |
| GameEngine.BaseGame.TickLava | src/whiteshoe/game.py:922-947 | the clock is advanced and split as LavaStep says (`warmed`); with no whole period nothing else changes, otherwise the walk from `warmed` to the new state is Burned with LAVA_DAMAGE times the periods |
| GameEngine.BaseGame.Warm | src/whiteshoe/game.py:929-945 | for a given clock step: the pool's clock keeps what is left (`warmed`, nothing else changes); no whole period burns nothing; otherwise the walk from `warmed` is Burned with LAVA_DAMAGE times the periods |
| GameEngine.BaseGame.TickLavas | src/whiteshoe/game.py:921-948 | every pool takes its tick; the state stays consistent |
| GameEngine.BaseGame.Tick | src/whiteshoe/game.py:684-704 | the first call only starts the stopwatch and changes nothing else; a later successful call ends in what Reported says of the ticked state `ticked` |
| Server.FindNumber | src/whiteshoe/server.py:668-685 | a player found is one of the listed players numbered `pid`; not found means no listed player carries that number |
| Server.NumberedInWorld | src/whiteshoe/server.py:484-486 | a player `_find_player` finds is an entity of its cell, so removing it succeeds |
| Server.WithoutNumbered | src/whiteshoe/server.py:484-486 | removing a player keeps the world's cells |
| Server.RefreshedOnce | src/whiteshoe/server.py:765-794 | over distinct players each remembered world is refreshed once: a player on the map remembers its view merged into its memory; every other memory stays |
| Server.UnvisitedUnchanged | src/whiteshoe/server.py:765-794 | over distinct players, the refresh of those before a player leaves that player's memory as it was |
| Server.RefreshConsistent | src/whiteshoe/server.py:765-794 | refreshing every player's vision keeps the state consistent |
| Server.RemoveAppendKeeps | src/whiteshoe/server.py:717-737 | taking the player out of its cell and putting it back at the end keeps the cell's objects |
| Server.BlockedKeepsCells | src/whiteshoe/server.py:716-738 | a blocked move changes only the order of the player's cell, which now ends with the player; every other cell is untouched |
| Server.SteppedOneCell | src/whiteshoe/server.py:716-748 | a step goes to a neighbouring cell of the world that held nothing solid; the player is appended there, its old cell loses one copy of it, and every other cell is untouched |
| Server.Hop | src/whiteshoe/server.py:845-866 | the end of a hop keeps the world's cells |
| Server.Flight | src/whiteshoe/server.py:823-866 | a bullet's flight is defined only where its timer is (its size has a speed in BULLET_SPEEDS); a bullet whose timer stays at zero or above always has one, touching no cell; a leaving bullet's hop can still raise (Leave); every flight keeps the world's cells |
| Server.StepAway | src/whiteshoe/server.py:838-840 | a step along a direction reaches a different, neighbouring cell |
| Server.SetObjHolds | src/whiteshoe/server.py:828-835 | an in-place timer update keeps the identities a cell holds |
| Server.RemoveHolds | src/whiteshoe/server.py:837 | a removal only loses identities |
| Server.BulletMovesOnce | src/whiteshoe/server.py:823-866 | a bullet moves at most one cell per tick, unlike the game's catch-up loop: any new cell holding it is a neighbour of its own |
| Server.FlightWaits | src/whiteshoe/server.py:828-833 | a bullet whose timer stays at zero or above enters no cell |
| Server.BulletFate | src/whiteshoe/server.py:824-834 | the timer starts at the speed its size selects and loses the elapsed time; at zero or above the bullet waits with that timer, below zero it leaves owing one speed more; undefined when the size or its speed is missing |
| Server.LeaveMovesOnce | src/whiteshoe/server.py:833-866 | a bullet that leaves its cell enters at most a neighbouring one |
| Server.HopHolds | src/whiteshoe/server.py:845-866 | no cell but the target gains the bullet |
| Server.BlastHolds | src/whiteshoe/server.py:850-857 | a blast adds only new identities |
| Server.HoldsAppend | src/whiteshoe/server.py:857 | appending an object of another identity adds nothing to what a cell holds |
| Server.BulletExplodes | src/whiteshoe/server.py:845-862 | a bullet reaching a solid cell does not enter it: every cell of the world within distance size-1 gains one explosion of damage size squared |
| Server.Volley | src/whiteshoe/server.py:820-867 | the volley keeps the world's cells |
| Server.VolleyStaysNone | src/whiteshoe/server.py:820-867 | once a bullet's flight raises, the whole tick raises |
| Server.VolleyStep | src/whiteshoe/server.py:823-867 | one more bullet of the volley is that bullet's flight after the others |
| Server.Refilled | src/whiteshoe/server.py:897-903 | a cell left with only explosions gets an EMPTY at its front; the world's cells stay |
| Server.RefilledLasting | src/whiteshoe/server.py:897-903 | after the refill the cell holds something that is not an explosion, and its earlier objects are still at its end |
| Server.Damaged | src/whiteshoe/server.py:884-903 | an explosion's hit keeps the world's cells |
| Server.DamagedRemoves | src/whiteshoe/server.py:888-903 | at hp <= 0 an object other than a player leaves its cell, exactly one copy of it, and the cell never holds only explosions |
| Server.DamagedSurvives | src/whiteshoe/server.py:884-888 | a surviving object only has its hp lowered, in place |
| Server.SpawnedFound | src/whiteshoe/server.py:452-482 | a spawned player is found again by its number, in its cell, unless a player listed before already carries that number |
| Server.FindNumberAppend | src/whiteshoe/server.py:668-685 | searching two lists finds in the second only what the first does not decide |
| Server.JoiningConsistent | src/whiteshoe/server.py:496-498 | registering a new player keeps the state consistent |
| Server.LeavingConsistent | src/whiteshoe/server.py:593-594 | dropping a player keeps the state consistent |
| Server.Game.constructor | src/whiteshoe/server.py:424-444 | a new game has the generated world, no players, no remembered worlds and no clock |
| Server.Game.FindObjs | src/whiteshoe/server.py:654-662 | `find_objs` lists every entity of that kind with its cell, in dict order and list order |
| Server.Game.FindPlayer | src/whiteshoe/server.py:668-685 | `_find_player` finds the first player carrying the number |
| Server.Game.DetermineCanSee | src/whiteshoe/server.py:598-603 | the visible world the vision function gives for the facing |
| Server.Game.SendPlayerVision | src/whiteshoe/server.py:605-652 | the vision packets of the remembered cells, addressed to the player, with the last packet included as intended (see ServerView.LastPacketDropped); None where the player has no memory or a cell cannot be packed |
| Server.Game.MarkDirty | src/whiteshoe/server.py:765-794 | every player on the map merges its view into its memory; the world and the players stay; every packet goes to a player who sees; it succeeds exactly when every player on the map has a sight and every cell it would report can be packed (RefreshOk) |
| Server.Game.RefreshPlayer | src/whiteshoe/server.py:767-793 | one player's view is merged into its memory, and every packet goes to that player; it succeeds exactly when the player's sight does not raise and every cell it reports can be packed (RefreshesOne) |
| Server.Game.RemovePlayer | src/whiteshoe/server.py:484-488 | the player leaves its cell and all vision is refreshed; the packets returned go to players on the map who see the new world; nothing changes and nothing is sent where it is not found; it succeeds exactly when the player is found and the refresh from the state without it succeeds |
| Server.Game.SpawnPlayer | src/whiteshoe/server.py:452-482 | SpawnedIn: the number is not carried by an object without one; a player of that number still on the map is removed first and every vision refreshed (`cleared`); then the new player, facing some direction and with the next identity, is appended to a cell of `cleared` that holds nothing solid, and nothing else changes; it succeeds exactly when SpawnsIn holds: the number is not on an object without one, the refresh after removing a living player of that number succeeds, and a cell free of solid objects remains |
| Server.Game.PlaceSpawned | src/whiteshoe/server.py:462-482 | the new player, facing one of the directions, is appended to a cell that holds nothing solid and takes the next identity; nothing else changes; with no such cell, nothing changes; it succeeds exactly when some cell holds nothing solid |
| Server.Game.KillPlayer | src/whiteshoe/server.py:490-493 | Killed: the player is found and removed, every vision refreshed (`removed`), its remembered world forgotten, and then `_spawn_player` runs from there exactly as SpawnedIn says, which also removes a player of that number still on the map; players and clock are kept; it succeeds exactly when KillsIn holds: the player is found, the refresh without it succeeds, and the spawn from there succeeds (SpawnsIn) |
| Server.KilledRespawns | src/whiteshoe/server.py:490-493 | after a kill a new player of that number, with the last identity used, is the last object of some cell |
| Server.Game.PlayerJoin | src/whiteshoe/server.py:495-526 | the player is registered last with an empty memory; the spawn from the registered state is exactly SpawnedIn (`spawned`); the newcomer's first look is a sight (Sees) and the final state is `spawned` with that look remembered (Remembered) and then every vision refreshed (Refresh), the clock kept; success means no player's sight raises (no Blind sight), as `_mark_dirty` would otherwise raise; the player is found on the map afterwards, and its first packet is the game's description with status STATUS_JOINED; it succeeds exactly when the spawn succeeds (SpawnsIn) and so do the newcomer's first look and the refresh after it (Welcomed) |
| Server.Game.PlayerLeave | src/whiteshoe/server.py:583-596 | a player on the map is removed and the packets of the refresh, each to a player who sees the new world, are returned; one not on the map sends nothing; its memory and its place in `players` are dropped, one player fewer; for a player on the map it succeeds exactly when the refresh does |
| Server.Game.PlayerAction | src/whiteshoe/server.py:690-710 | unknown constants or a player off the map raise with nothing changed; a success means the action was a command |
| Server.Game.Look | src/whiteshoe/server.py:712-714 | the player's facing becomes `arg`, in place, and every player's vision is refreshed; it succeeds exactly when the refresh from the state with the new facing succeeds |
| Server.Game.Move | src/whiteshoe/server.py:716-748 | a blocked move only reorders the player's cell and sends nothing; a step moves the player (see SteppedOneCell) and refreshes vision; a step succeeds exactly when StepSucceeds holds: the mover has a number and a facing, the refresh succeeds, and its own sight and packets do |
| Server.Game.Fire | src/whiteshoe/server.py:750-762 | a bullet of the player's number, facing and size `arg` is appended to the player's cell and vision is refreshed; no facing or number raises with nothing changed; it succeeds exactly when the player has a number and a facing that is a direction, and the refresh with the bullet placed succeeds |
| Server.Game.Tick | src/whiteshoe/server.py:796-818 | the clock moves to `now` and the players stay; the first tick only arms the clock and sends nothing |
| Server.Game.TickBullets | src/whiteshoe/server.py:820-867 | the tick succeeds exactly when the volley is defined, and then the world, the identity counter and the dirty cells are the volley's; players and memories stay |
| Server.Game.VolleyNext | src/whiteshoe/server.py:823-866 | one pass of the bullet loop extends the volley by one bullet: after it the world, counter and dirty cells are those of the volley over one more bullet, or that longer volley is undefined |
| Server.Game.TickBullet | src/whiteshoe/server.py:823-866 | the bullet's tick succeeds exactly when its flight is defined, and then gives its world |
| Server.Game.Wait | src/whiteshoe/server.py:828-832 | a bullet whose timer stays at zero or above only stores its new timer, wherever it is listed |
| Server.Game.Depart | src/whiteshoe/server.py:833-866 | a bullet leaving its cell gives exactly the world Leave defines |
| Server.Game.HopOn | src/whiteshoe/server.py:845-866 | the hop gives exactly the world Hop defines |
| Server.Game.TickExplosions | src/whiteshoe/server.py:869-910 | every explosion takes its tick; the players and the clock stay |
| Server.Game.TickExplosion | src/whiteshoe/server.py:871-910 | Exploded: the objects of its cell it has not hit before take its damage in turn (Struck, from the old state); then it records them and loses the elapsed time (`struck`), and leaves its cell, which becomes dirty, once its time is below zero; a failure has no clock or no `_damaged` list, or is ExplodeRaised |
| Server.Game.Explode | src/whiteshoe/server.py:878-910 | the hits and then the end of one explosion's tick are Exploded; a failure is ExplodeRaised: some hit in turn does not land, or the burnt explosion cannot leave its cell |
| Server.Game.Fade | src/whiteshoe/server.py:906-910 | the explosion's entry in its cell becomes the burnt object (`struck`), nothing else changes; with time below zero it then leaves its cell, which becomes dirty, otherwise the state is `struck`; it fails exactly when the time is below zero and the burnt explosion is not in its cell |
| Server.Game.Strike | src/whiteshoe/server.py:878-903 | no hits change nothing; otherwise each hit in turn, as it then stands, takes the explosion's `_damage` (Struck, from the old state to the new); only the explosion's own cell becomes dirty; a failure has hits, and either no `_damage` or some hit in turn does not land (StruckUntil, from the old state) |
| Server.StruckUntilLonger | src/whiteshoe/server.py:878-903 | hits that stop within a prefix of the hits stop within all of them, at the same hit |
| Server.Game.StrikeOne | src/whiteshoe/server.py:885-903 | one hit is an ExplosionHit: a player at hp <= 0 is Killed (removed, forgotten and spawned again exactly as SpawnedIn says) and the cell refilled, anything else is Damaged; it succeeds exactly when the hit lands (HitLands): a cell of the world and readable hp, then a damage that applies or a kill that succeeds (KillsIn) |
| Server.StruckLast | src/whiteshoe/server.py:878-903 | a trace over all hits but the last and the last hit make a trace over all of them |

## Left out

- Sockets, the select loop, sessions, keepalive timeouts and the curses front-end (`client.py` drawing, `window.py` drawing) are I/O. They are not part of this model. Only the client's world model, its packet sending and the fake network of `window.py` are modelled.
- Protocol buffers: a packet is a datatype. `ByteSize()` is an abstract `size` parameter, so the packet-splitting rule is modelled for any size function.
- Pickling, `DifflingAuthor`/`DifflingReader` and bsdiff are foreign serialisation code. They are not part of this model.
- The threading lock of `IDCounter` is concurrency. It is left out, and the counter is sequential.
- `Stopwatch` and `datetime`: a clock reading is a whole number of milliseconds passed in by the caller.
- Vision.Rays: the floating-point parts of `rays` are an oracle `admitted` that says which cells survive the filters. Those parts are the radius limit and the `Fraction` slopes of blocked directions. The contract states what holds for any such oracle.
- `load_by_name` and `level.dungeon_alpha` are not modelled. `level.dungeon_alpha` calls `maps.dungeon_alpha` with keyword arguments that function does not take, so every call raises.
- The `ca_maze` and `ca_caves` generators call `utility.ca_world_to_world`, which `utility.py` does not define. The generator registry models them as failing.
- `grouper`, `bytes_to_human`, `try_many_paths`, `coordinate_check`, `print_level` and the `repr`/`str` of `Level` are left out. They are formatting or search helpers that nothing in the modelled core calls.
- `bot.py`, the package `__init__` and the exception classes are not part of this model.
- `game.handle` builds its error packet with an unqualified `get_id`, which `game.py` never imports. GameEngine.BaseGame.Handle models the intended packet, not the NameError.
- `_tick_lava` reads `attr['_spreading']`, which nothing sets. GameEngine.BaseGame.TickLava treats a pool without it as raising, as the source does.
- `server.py` uses the undefined name `none` when it creates a game (line 156). That is session code, which this model leaves out.
- Aliasing of attribute dicts between different objects is not modelled. The `oid` of an entity stands for its identity, and in-place updates reach every entry with that `oid`.
- `_damaged` lists of explosions and slime families hold identities (oids), where the source keeps the objects and compares them by equality.
- The explosion bookkeeping of GameEngine.BaseGame.TickExplosion is written after its hits, where the source appends each hit before damaging it. The two orders give the same state, because the damage never reads the list.
- `DISPLAY_CHAR` is missing from `constants.py`, so the display table of `Maps.WorldToString` is a parameter.
- The join packet of `player_join` is the GameInfo message with its status and every game field; the packet id drawn from `get_id('packet')` and the payload type are not modelled. The status is STATUS_JOINED in server.py; game.py uses STATUS_GAMEINFO, which, like the game's other status, damage and object constants, is a configuration parameter because constants.py does not define it.
- `find_me` in `client.py` looks for the attribute `number`, while `game.py` players carry `player_id`. Client.FindMeSpec states the function as written over the `number` attribute.
- The client ignores `clear_all`, as the source does.
- GameEngine.BaseGame.Stab: stabs, in turn, the players the blocking cell held when the stabbing began (PlayersIn). Python walks the live list by position instead. The two differ once a stab kills a player that is not the last object of the cell. Python's walk then skips the object that moves into the dead player's place, and it reaches a player respawned at the end of that cell. The model stabs exactly the players the cell first held.
- GameEngine.BaseGame.SlimeHits: the walk over the live cell list is bounded by a `budget`, because a death can respawn a player into the walked cell. Running out of budget is reported as failure. TickSlime, TickSlimes, LavaBurn, TickLava, TickLavas and Tick pass the bound along. The contracts say nothing about a run that exhausts it.
- GameEngine.BaseGame.SlimeHits: states how the family's record of hits grows, not the damage each hit does (DamageObject states that).
- GameEngine.BaseGame.TickBullets: states that the state keeps its shape and only gains dirty marks; each bullet's flight is stated by TickBullet, not folded over the list.
- GameEngine.BaseGame.TickExplosions: states consistency only; each explosion's tick is stated by TickExplosion.
- GameEngine.BaseGame.TickSlimes: states consistency only; each slime's tick is stated by TickSlimeBullet and TickSlime.
- GameEngine.BaseGame.TickLavas: states consistency only; each pool's tick is stated by TickLava.
- GameEngine.BaseGame.Enter: its failure is stated only as needing a mine in the new cell.
- Server.Game.TickExplosions: states that the players and the clock stay; each explosion's tick is stated by Server.Game.TickExplosion.
- Server.Game.PlayerJoin: states the registration, the spawn (SpawnedIn, exactly), the final state and the first packet. The packets that follow are not stated: the vision of the newcomer's first look, then the `_mark_dirty` packets.
- Server.Game.PlayerAction: states the error cases, not which handler's effect follows (see Look, Move and Fire).
- Server.Game.Tick: states the clock and the first tick, not the composition of the later ones (see TickBullets and TickExplosions).
- GameEngine.BaseGame.Tick: `ticked`, the state that is reported, is not related to the old state. The four passes (TickBullets, TickExplosions, TickSlimes, TickLavas) state only that the state keeps its shape; each element's tick is stated by TickBullet, TickExplosion, TickSlimeBullet, TickSlime and TickLava.
- GameEngine.Consistent: two invariants of the world are not stated. A cell may end holding nothing, and two player entities may carry the same id. DamageObject's refill and the finding of players by id do not rely on either.
- NestyDict.Nesty.Set: the TypeError `__setitem__` raises for a mapping that is not a plain dict is not modelled. A value is either a plain value or a dict.
- Server.Game.RemovePlayer, Server.Game.PlayerLeave: the packets are stated by their recipients only (every one goes to a player on the map who sees), as for Server.Game.MarkDirty, which produces them.
- GameEngine.BaseGame.Move: the failure of a free step is stated only as a step into a cell holding a mine (StepRaises). Which mine raised, and the state it left, are not stated.
- GameEngine.BaseGame.StepTo: the failure of a free step is stated only as a step into a cell holding a mine, as for Move.
- GameEngine.BaseGame.MoveInto: only a cell without mines is stated never to fail. Which mine raised is not stated; TriggerMine states when one mine does.
- GameEngine.BaseGame.Fly: a failure is stated only as needing a timer below zero. The pass whose object had left its cell or had no direction is not named.
- GameEngine.BaseGame.FlyStep: its failure (the object is gone from its cell, or has no direction) is not stated; only that a failure ends the flight.
- GameEngine.BaseGame.TickBullet: a failed flight is stated only as one whose timer is below zero (see Fly).
- GameEngine.BaseGame.TickSlimeBullet: a failed flight is stated only as one whose timer is below zero (see Fly).
- GameEngine.BaseGame.TeamCanSee: a failure is not characterised, only each success. It comes from the viewer's own sight, a missing `team` or `player_id`, a player object without an id, or a teammate's sight.
- GameEngine.BaseGame.FlushPlayer: a failure is stated only for an id found on an object without one. A failed sight or packing for a player on the map is not stated apart.
- GameEngine.BaseGame.FlushNext: a failure is not characterised; it is FlushPlayer's.
- GameEngine.BaseGame.FlushDirty: only a state with nothing dirty is stated never to fail. Which player's FlushPlayer failed is not stated.
- GameEngine.BaseGame.Report: only a state with nothing dirty is stated never to fail (see FlushDirty).
- GameEngine.BaseGame.PlayerAction: a handled action whose reporting fails is not characterised (see Report). The unhandled and malformed cases are stated by Acted.
- GameEngine.BaseGame.PlayerJoin: a failure is not characterised. It comes from the spawn (Enrol states where that raises), an announcement when another player has no name (JoinedMsgs), or the reporting (Report).
- GameEngine.BaseGame.Welcome: a failure is not characterised. It comes from an announcement when another player has no name (JoinedMsgs), or from the reporting (Report).
- GameEngine.BaseGame.PlayerLeave: a failure is stated only for an id found on an object without one. A failure of the reporting that follows is not characterised (see Report).
- GameEngine.BaseGame.SlimeSpread: a failure is not folded over the passes. SpreadOnce states exactly when one pass fails.
- GameEngine.BaseGame.SlimeTimers: a failure is not characterised. It comes from a timer that is not a number, Expire or Respread.
- GameEngine.BaseGame.SettleSlime: a failure is not characterised; it is SlimeTimers'.
- GameEngine.BaseGame.Respread: only an exhausted family is stated never to fail. Otherwise a failure comes from a missing spread limit or SlimeSpread.
- GameEngine.BaseGame.TickSlime: a failure is not characterised. It comes from a slime without a family, SlimeHits, or SettleSlime.
- GameEngine.BaseGame.LavaBurn: a failure is stated only for a cell holding nothing but the pool from the walk's start, where it fails exactly when the budget is short. Which object's damage raised is not stated; BurnAt states when one does.
- GameEngine.BaseGame.BurnFrom: a failure is stated only as for LavaBurn.
- GameEngine.BaseGame.BurnOn: a failure is stated only as for LavaBurn.
- GameEngine.BaseGame.TickLava: a failure is not characterised. It comes from a clock that is not a number, a missing `_spreading` flag, or LavaBurn.
- GameEngine.BaseGame.Warm: only a step of no whole period is stated never to fail; otherwise a failure is LavaBurn's.
- Ids.IdCounter.ReleaseId: the source's assertions (the id was handed out and is not yet released) are preconditions.

## Findings

| source | as written | input that shows it | evidently intended | confidence | as-written member | corrected member |
|---|---|---|---|---|---|---|
| src/whiteshoe/game.py:552-575 | `_move_into` iterates the live cell list while it removes each mine it visits, so the object right after a removed mine is skipped | a player steps onto a cell holding [mine, mine, player] | every mine of the cell goes off | high, not executed | GameEngine.SecondMineSkipped | GameEngine.BaseGame.MoveInto |
| src/whiteshoe/maps.py:149-175 | `world_to_string` builds the last row but never appends it | a world of one cell prints as "" | the text holds every row, "." for that world | high, not executed | Maps.LastRowDropped | Maps.WorldToString |
| src/whiteshoe/server.py:605-652 | `_send_player_vision` never appends the packet it is filling, so the last packet is never sent | one remembered cell that is now empty: no packet goes out | the packets include the last one, as in `game.py` | high, not executed | ServerView.LastPacketDropped | ServerView.VisionPacketsAgree |
| src/whiteshoe/game.py:875-897 | a slime family with no spread left sets `_death_time` back to SLIME_SPREAD_TIME on every spread period | an exhausted slime ticked every 50 ms with a 100 ms period | the death time is set once, then runs down until the slime dies | medium, not executed | GameEngine.ExhaustedNeverDiesAsWritten | GameEngine.ExhaustedDies |
| src/whiteshoe/game.py:1045-1051 | `FreeForAllGame._spawn_player` reuses the name `coord` in its ammo loop and returns the cell of the last player listed | a second player in a cell listed after the spawn cell | the spawn cell of the new player | high, not executed | GameEngine.FreeForAllReturnsOtherCell | GameEngine.BaseGame.SpawnPlayer |
| src/whiteshoe/game.py:1056-1073 | `TeamGame._determine_can_see` adds the vision of every other player, whatever the team | two players of different teams | only teammates share vision | medium, not executed | GameEngine.EnemySharesVision | GameEngine.BaseGame.TeamCanSee |
| src/whiteshoe/utility.py:545-547 | `nesty.empty` deletes from `self._keys` while iterating over it, which raises after the first key | a view holding two keys | every key of the view is removed | high, not executed | NestyDict.Nesty.EmptyAsWritten | NestyDict.Nesty.Empty |
| src/whiteshoe/vision.py:14-17 | `square` calls `neighbourhood`, which `vision.py` never imports | any call raises NameError | the cells within Chebyshev distance 3 | high, not executed | Vision.SquareAsWritten | Vision.Square |
