/** Which functions may run in parallel, by their rows of the action table. */
module Parallelism {
  import opened Packets
  import opened NetworkFunctions
  import opened ActionTable

  /** One cell of a row: a packet location and what the function does there. */
  datatype Cell = Cell(location: string, mark: string)

  /** A row of the action table, its cells in the order they are visited. */
  type Row = seq<Cell>

  /** The mark at a location; a missing one reads as the empty string. */
  function Mark(row: Row, location: string): string {
    if row == [] then "" else if row[0].location == location then row[0].mark else Mark(row[1..], location)
  }

  /** Anything but "R" counts as a write. */
  datatype Action = READ | WRITE

  function StringToAction(mark: string): Action {
    if mark == "R" then READ else WRITE
  }

  /** Unknown locations count as the payload. */
  function StringToField(location: string): Field {
    if location == "SIP" then SIP
    else if location == "DIP" then DIP
    else if location == "SPORT" then SPORT
    else if location == "DPORT" then DPORT
    else PAYLOAD
  }

  /** The first function drops or resizes packets. */
  predicate Reshapes(cell: Cell) {
    (cell.location == "Drop" || cell.location == "Add/Rm") && cell.mark == "T"
  }

  /** This cell of the first function rules out running the second in parallel. */
  predicate Blocks(cell: Cell, second: Row) {
    Reshapes(cell) ||
    ( cell.mark != "null" && Mark(second, cell.location) != "null"
      && StringToAction(Mark(second, cell.location)) == READ && StringToAction(cell.mark) == WRITE)
  }

  /** The second function writes here, and the first reads or writes. */
  predicate Conflicts(cell: Cell, second: Row) {
    cell.mark != "null" && Mark(second, cell.location) != "null" && StringToAction(Mark(second, cell.location)) == WRITE
  }

  ghost predicate Parallelizable(first: Row, second: Row) {
    forall i :: 0 <= i < |first| ==> !Blocks(first[i], second)
  }

  function ConflictFields(first: Row, second: Row): seq<Field> {
    if first == [] then []
    else (if Conflicts(first[0], second) then [StringToField(first[0].location)] else []) + ConflictFields(first[1..], second)
  }

  /** What the i-th cell adds to the verdict and to the conflicting fields. */
  lemma NextCell(first: Row, second: Row, i: nat)
    requires i < |first|
    ensures ConflictFields(first[i..], second) ==
            (if Conflicts(first[i], second) then [StringToField(first[i].location)] else []) + ConflictFields(first[i + 1..], second)
    ensures Parallelizable(first, second) ==> !Blocks(first[i], second)
  {
    hide Blocks, Conflicts, StringToField;
    assert first[i..][0] == first[i] && first[i..][1..] == first[i + 1..];
  }

  lemma AllCells(first: Row, second: Row)
    ensures first[0..] == first && ConflictFields(first[|first|..], second) == []
    ensures (forall j :: 0 <= j < |first| ==> !Blocks(first[j], second)) ==> Parallelizable(first, second)
  {
    hide Blocks, Conflicts, StringToField;
  }

  /** The branches of the check at one cell. */
  lemma CellCases(cell: Cell, mark2: string, second: Row)
    requires mark2 == Mark(second, cell.location)
    ensures Reshapes(cell) ==> Blocks(cell, second)
    ensures !Reshapes(cell) ==>
      var both := cell.mark != "null" && mark2 != "null";
      && (Conflicts(cell, second) <==> both && StringToAction(mark2) == WRITE)
      && (Blocks(cell, second) <==> both && StringToAction(mark2) == READ && StringToAction(cell.mark) == WRITE)
  {
    hide Mark, Reshapes, StringToAction;
  }

  /** The check as it runs, cell by cell, collecting conflicting fields. */
  method IsParallelizable(first: Row, second: Row) returns (parallel: bool, conflicting: seq<Field>)
    ensures parallel <==> Parallelizable(first, second)
    ensures parallel ==> conflicting == ConflictFields(first, second)
  {
    hide *;
    conflicting := [];
    AllCells(first, second);
    for i := 0 to |first|
      invariant forall j :: 0 <= j < i ==> !Blocks(first[j], second)
      invariant conflicting + ConflictFields(first[i..], second) == ConflictFields(first, second)
    {
      var cell := first[i];
      var val2 := Mark(second, cell.location);
      NextCell(first, second, i);
      CellCases(cell, val2, second);
      Reshaping(cell);
      if (cell.location == "Drop" || cell.location == "Add/Rm") && cell.mark == "T" {
        return false, conflicting;
      } else if cell.mark != "null" && val2 != "null" {
        var a1, a2 := StringToAction(cell.mark), StringToAction(val2);
        if (a1 == READ || a1 == WRITE) && a2 == WRITE {
          conflicting := conflicting + [StringToField(cell.location)];
        } else if a1 == WRITE {
          return false, conflicting;
        }
      }
    }
    parallel := true;
  }

  lemma Reshaping(cell: Cell)
    ensures Reshapes(cell) <==> (cell.location == "Drop" || cell.location == "Add/Rm") && cell.mark == "T"
  {
  }

  // ----- What the check means for packets -----

  const LOCATIONS: set<string> := {"SIP", "DIP", "SPORT", "DPORT", "Payload", "Add/Rm", "Drop"}

  function LocationOf(f: Field): (location: string)
    ensures location in LOCATIONS && location != "Drop" && location != "Add/Rm" && StringToField(location) == f
  {
    match f
    case SIP => "SIP"
    case DIP => "DIP"
    case SPORT => "SPORT"
    case DPORT => "DPORT"
    case PAYLOAD => "Payload"
  }

  /** A row as the action table has them: one cell for each location, and
      dropping and resizing marked "T" or not at all. */
  ghost predicate WellFormedRow(row: Row) {
    (forall i :: 0 <= i < |row| ==> row[i].location in LOCATIONS)
    && (forall i, j :: 0 <= i < j < |row| ==> row[i].location != row[j].location)
    && (forall location :: location in LOCATIONS ==> exists i :: 0 <= i < |row| && row[i].location == location)
    && Mark(row, "Drop") in {"null", "T"} && Mark(row, "Add/Rm") in {"null", "T"}
  }

  /** The profile a row stands for: a marked field is read, one marked
      other than "R" is written. */
  function ProfileOf(row: Row): Profile {
    Profile((set f: Field | Mark(row, LocationOf(f)) != "null"),
            (set f: Field | Mark(row, LocationOf(f)) != "null" && StringToAction(Mark(row, LocationOf(f))) == WRITE),
            Mark(row, "Drop") == "T")
  }

  predicate Resizes(row: Row) {
    Mark(row, "Add/Rm") == "T"
  }

  /** Some cell at the location has a mark; or one that is not a mere "R". */
  ghost predicate Touched(row: Row, location: string) {
    exists i :: 0 <= i < |row| && row[i].location == location && row[i].mark != "null"
  }

  ghost predicate Written(row: Row, location: string) {
    exists i :: 0 <= i < |row| && row[i].location == location && row[i].mark != "null" && row[i].mark != "R"
  }

  lemma {:induction false} MarkAt(row: Row, i: nat)
    requires i < |row| && forall j, k :: 0 <= j < k < |row| ==> row[j].location != row[k].location
    ensures Mark(row, row[i].location) == row[i].mark
  {
    if i == 0 {
    } else {
      MarkAt(row[1..], i - 1);
    }
  }

  lemma CellOf(row: Row, location: string) returns (i: nat)
    requires WellFormedRow(row) && location in LOCATIONS
    ensures i < |row| && row[i] == Cell(location, Mark(row, location))
  {
    i :| 0 <= i < |row| && row[i].location == location;
    MarkAt(row, i);
  }

  lemma MarkMeans(row: Row, location: string)
    requires WellFormedRow(row) && location in LOCATIONS
    ensures Mark(row, location) != "null" <==> Touched(row, location)
    ensures Mark(row, location) != "null" && Mark(row, location) != "R" <==> Written(row, location)
    ensures Mark(row, location) == "T" <==> Cell(location, "T") in row
  {
    hide WellFormedRow, Mark, LOCATIONS;
    var i := CellOf(row, location);
    assert row[i] in row;
    forall j | 0 <= j < |row| && row[j].location == location
      ensures row[j].mark == Mark(row, location)
    {
      OneCellEach(row);
      MarkAt(row, j);
    }
  }

  lemma OneCellEach(row: Row)
    requires WellFormedRow(row)
    ensures forall j, k :: 0 <= j < k < |row| ==> row[j].location != row[k].location
  {
  }

  /** What a row's profile says, from its cells. */
  lemma ProfileByCells(row: Row)
    requires WellFormedRow(row)
    ensures var s := ProfileOf(row);
      (SIP in s.readSet <==> Touched(row, "SIP")) && (SIP in s.writeSet <==> Written(row, "SIP"))
      && (DIP in s.readSet <==> Touched(row, "DIP")) && (DIP in s.writeSet <==> Written(row, "DIP"))
      && (SPORT in s.readSet <==> Touched(row, "SPORT")) && (SPORT in s.writeSet <==> Written(row, "SPORT"))
      && (DPORT in s.readSet <==> Touched(row, "DPORT")) && (DPORT in s.writeSet <==> Written(row, "DPORT"))
      && (PAYLOAD in s.readSet <==> Touched(row, "Payload")) && (PAYLOAD in s.writeSet <==> Written(row, "Payload"))
      && (s.drops <==> Cell("Drop", "T") in row) && (Resizes(row) <==> Cell("Add/Rm", "T") in row)
  {
    hide WellFormedRow, Mark, Touched, Written, LOCATIONS;
    AllLocations();
    MarkMeans(row, "SIP");
    MarkMeans(row, "DIP");
    MarkMeans(row, "SPORT");
    MarkMeans(row, "DPORT");
    MarkMeans(row, "Payload");
    MarkMeans(row, "Drop");
    MarkMeans(row, "Add/Rm");
  }

  lemma AllLocations()
    ensures {"SIP", "DIP", "SPORT", "DPORT", "Payload", "Add/Rm", "Drop"} <= LOCATIONS
  {
  }

  lemma FieldOfLocation(location: string)
    requires location in LOCATIONS && location != "Drop" && location != "Add/Rm"
    ensures location == LocationOf(StringToField(location))
  {
  }

  /** In terms of profiles: the check allows exactly the pairs whose first
      function neither drops nor resizes and writes nothing the second merely
      reads. */
  lemma CheckByProfiles(first: Row, second: Row)
    requires WellFormedRow(first) && WellFormedRow(second)
    ensures Parallelizable(first, second) <==>
            !ProfileOf(first).drops && !Resizes(first)
            && ProfileOf(first).writeSet * ProfileOf(second).readSet <= ProfileOf(second).writeSet
  {
    hide *;
    if Parallelizable(first, second) {
      AllowedByProfiles(first, second);
    } else {
      BlockedByProfiles(first, second);
    }
  }

  lemma AllowedByProfiles(first: Row, second: Row)
    requires WellFormedRow(first) && WellFormedRow(second) && Parallelizable(first, second)
    ensures !ProfileOf(first).drops && !Resizes(first)
    ensures ProfileOf(first).writeSet * ProfileOf(second).readSet <= ProfileOf(second).writeSet
  {
    hide WellFormedRow, Mark;
    var drop := CellOf(first, "Drop");
    var resize := CellOf(first, "Add/Rm");
    assert !Blocks(first[drop], second) && !Blocks(first[resize], second);
    forall f | f in ProfileOf(first).writeSet && f in ProfileOf(second).readSet
      ensures f in ProfileOf(second).writeSet
    {
      var i := CellOf(first, LocationOf(f));
      assert !Blocks(first[i], second);
    }
  }

  lemma BlockedByProfiles(first: Row, second: Row)
    requires WellFormedRow(first) && WellFormedRow(second) && !Parallelizable(first, second)
    ensures ProfileOf(first).drops || Resizes(first)
            || !(ProfileOf(first).writeSet * ProfileOf(second).readSet <= ProfileOf(second).writeSet)
  {
    hide Mark;
    var i :| 0 <= i < |first| && Blocks(first[i], second);
    MarkAt(first, i);
    var location := first[i].location;
    hide WellFormedRow;
    if location != "Drop" && location != "Add/Rm" {
      FieldOfLocation(location);
      var f := StringToField(location);
      assert f in ProfileOf(first).writeSet && f in ProfileOf(second).readSet && f !in ProfileOf(second).writeSet;
    }
  }

  /** The conflicting fields are the ones the first touches and the second writes. */
  lemma ConflictsByProfiles(first: Row, second: Row, f: Field)
    requires WellFormedRow(first) && WellFormedRow(second) && Parallelizable(first, second)
    ensures f in ConflictFields(first, second) <==> f in ProfileOf(first).readSet && f in ProfileOf(second).writeSet
  {
    ConflictMember(first, second, f);
    if f in ProfileOf(first).readSet && f in ProfileOf(second).writeSet {
      var i := CellOf(first, LocationOf(f));
      assert Conflicts(first[i], second);
    }
    if i :| 0 <= i < |first| && Conflicts(first[i], second) && StringToField(first[i].location) == f {
      MarkAt(first, i);
      var location := first[i].location;
      if location == "Drop" || location == "Add/Rm" {
        assert false;
      }
      FieldOfLocation(location);
    }
  }

  lemma {:induction false} ConflictMember(first: Row, second: Row, f: Field)
    ensures f in ConflictFields(first, second) <==>
            exists i :: 0 <= i < |first| && Conflicts(first[i], second) && StringToField(first[i].location) == f
  {
    if first == [] {
    } else {
      ConflictMember(first[1..], second, f);
      if i :| 0 <= i < |first[1..]| && Conflicts(first[1..][i], second) && StringToField(first[1..][i].location) == f {
        assert first[i + 1] == first[1..][i];
      }
      if i :| 0 < i < |first| && Conflicts(first[i], second) && StringToField(first[i].location) == f {
        assert first[1..][i - 1] == first[i];
      }
    }
  }

  /** What the check admits, the merger recombines: if it allows two
      functions to run in parallel, then for all behaviours within their rows
      and every packet the merge is the sequential result exactly when no
      field is written by both. */
  lemma AdmittedPairsMergeSequentially(first: Row, second: Row)
    requires WellFormedRow(first) && WellFormedRow(second) && Parallelizable(first, second)
    requires ProfileOf(first).writeSet <= MERGEABLE && ProfileOf(second).writeSet <= MERGEABLE
    ensures AlwaysParallel(ProfileOf(first), ProfileOf(second)) <==> ProfileOf(first).writeSet !! ProfileOf(second).writeSet
  {
    var s, t := ProfileOf(first), ProfileOf(second);
    CheckByProfiles(first, second);
    assert WellProfiled(s) && WellProfiled(t);
    AlwaysParallelExactly(s, t);
    if s.writeSet !! t.writeSet {
      forall f | f in s.writeSet
        ensures f !in t.readSet
      {
        assert f in t.readSet ==> f in s.writeSet * t.readSet;
      }
    }
  }

  /** On a field both write, one merge keeps the value of the major packet,
      whichever of the two would run last. */
  lemma SharedWriteKeepsMajor(f: Behaviour, s: Profile, g: Behaviour, t: Profile, p: Wire, x: Field)
    requires x in s.writeSet && x in t.writeSet
    requires !IsNull(f(p)) && !IsNull(g(p))
    ensures MergeTwo(Info(f(p), s.writeSet), Info(g(p), t.writeSet)).Delivered?
    ensures MergeTwo(Info(f(p), s.writeSet), Info(g(p), t.writeSet)).packet.Get(x) == f(p).Get(x)
  {
    OverlayConflict(Info(f(p), s.writeSet), Info(g(p), t.writeSet), x);
  }

  // ----- The rows of the functions the runtime has -----

  function RuntimeRow(nf: NF): Row {
    match nf
    case proxy => RowOf("R/W", "R/W", "null", "null")
    case compressor => RowOf("null", "null", "null", "R/W")
    case dnf_loadbalancer => RowOf("R", "R", "T", "null")
    case _ => RowOf("null", "null", "null", "null")
  }

  /** A row whose function reads the source address and port and does not resize. */
  function RowOf(dip: string, dport: string, drop: string, payload: string): Row {
    [Cell("Add/Rm", "null"), Cell("DIP", dip), Cell("DPORT", dport), Cell("Drop", drop),
     Cell("Payload", payload), Cell("SIP", "R"), Cell("SPORT", "R")]
  }

  function Place(location: string): nat {
    if location == "Add/Rm" then 0 else if location == "DIP" then 1 else if location == "DPORT" then 2
    else if location == "Drop" then 3 else if location == "Payload" then 4 else if location == "SIP" then 5 else 6
  }

  lemma RowMarks(dip: string, dport: string, drop: string, payload: string)
    ensures var row := RowOf(dip, dport, drop, payload);
      && (forall i, j :: 0 <= i < j < |row| ==> row[i].location != row[j].location)
      && (forall l :: l in LOCATIONS ==> row[Place(l)].location == l && Mark(row, l) == row[Place(l)].mark)
  {
    hide *;
    RowPlaces(dip, dport, drop, payload);
    var row := RowOf(dip, dport, drop, payload);
    forall l | l in LOCATIONS
      ensures row[Place(l)].location == l && Mark(row, l) == row[Place(l)].mark
    {
      MarkAt(row, Place(l));
    }
  }

  lemma RowPlaces(dip: string, dport: string, drop: string, payload: string)
    ensures var row := RowOf(dip, dport, drop, payload);
      && |row| == 7 && (forall l :: l in LOCATIONS ==> Place(l) < 7 && row[Place(l)].location == l)
      && forall i, j :: 0 <= i < j < |row| ==> row[i].location != row[j].location
  {
    var row := RowOf(dip, dport, drop, payload);
    assert Place("Add/Rm") == 0 && Place("DIP") == 1 && Place("DPORT") == 2 && Place("Drop") == 3;
    assert Place("Payload") == 4 && Place("SIP") == 5 && Place("SPORT") == 6;
    assert forall i :: 0 <= i < |row| ==> Place(row[i].location) == i;
  }

  lemma RowIsWellFormed(dip: string, dport: string, drop: string, payload: string)
    requires drop == "null" || drop == "T"
    ensures WellFormedRow(RowOf(dip, dport, drop, payload))
  {
    hide Mark, LOCATIONS;
    RowMarks(dip, dport, drop, payload);
    KnownLocations();
    var row := RowOf(dip, dport, drop, payload);
    forall l | l in LOCATIONS
      ensures exists i :: 0 <= i < |row| && row[i].location == l
    {
      assert row[Place(l)].location == l;
    }
  }

  lemma KnownLocations()
    ensures "Add/Rm" in LOCATIONS && "DIP" in LOCATIONS && "DPORT" in LOCATIONS && "Drop" in LOCATIONS
    ensures "Payload" in LOCATIONS && "SIP" in LOCATIONS && "SPORT" in LOCATIONS
    ensures Place("Add/Rm") == 0 && Place("DIP") == 1 && Place("DPORT") == 2 && Place("Drop") == 3
    ensures Place("Payload") == 4 && Place("SIP") == 5 && Place("SPORT") == 6
  {
  }

  function MarkOfField(f: Field, dip: string, dport: string, payload: string): string {
    match f
    case DIP => dip
    case DPORT => dport
    case PAYLOAD => payload
    case _ => "R"
  }

  lemma RowWrites(dip: string, dport: string, drop: string, payload: string, f: Field)
    ensures f in ProfileOf(RowOf(dip, dport, drop, payload)).writeSet <==>
            MarkOfField(f, dip, dport, payload) != "null" && MarkOfField(f, dip, dport, payload) != "R"
  {
    hide Mark, LOCATIONS;
    RowMarks(dip, dport, drop, payload);
    KnownLocations();
    var row := RowOf(dip, dport, drop, payload);
    assert Mark(row, LocationOf(f)) == row[Place(LocationOf(f))].mark == MarkOfField(f, dip, dport, payload);
  }

  /** The two action tables agree: for every function that has a row in the
      orchestrator's table (the packet generator has none) the row is well
      formed and its write set is the one the merger uses. */
  lemma TablesAgree(nf: NF)
    requires nf != pktgen
    ensures WellFormedRow(RuntimeRow(nf))
    ensures ProfileOf(RuntimeRow(nf)).writeSet == WriteFields(nf)
  {
    hide Mark, LOCATIONS, WellFormedRow, ProfileOf;
    var (dip, dport, drop, payload) := match nf
      case proxy => ("R/W", "R/W", "null", "null")
      case compressor => ("null", "null", "null", "R/W")
      case dnf_loadbalancer => ("R", "R", "T", "null")
      case dnf_firewall => ("null", "null", "null", "null");
    assert RuntimeRow(nf) == RowOf(dip, dport, drop, payload);
    RowIsWellFormed(dip, dport, drop, payload);
    forall f: Field
      ensures f in ProfileOf(RuntimeRow(nf)).writeSet <==> f in WriteFields(nf)
    {
      RowWrites(dip, dport, drop, payload, f);
    }
  }

  /** A function that changes the payload only; the orchestrator's table has it. */
  const CISCO_IOS: Row := [Cell("Add/Rm", "null"), Cell("DIP", "null"), Cell("DPORT", "null"), Cell("Drop", "null"),
                           Cell("Payload", "R/W"), Cell("SIP", "null"), Cell("SPORT", "null")]

  lemma CiscoMark()
    ensures Mark(CISCO_IOS, "Payload") == "R/W"
  {
    hide Mark, LOCATIONS;
    KnownLocations();
    assert forall i :: 0 <= i < |CISCO_IOS| ==> Place(CISCO_IOS[i].location) == i;
    MarkAt(CISCO_IOS, 4);
  }

  lemma CompressorMark()
    ensures Mark(RuntimeRow(compressor), "Payload") == "R/W"
  {
    hide Mark, LOCATIONS;
    RowMarks("null", "null", "null", "R/W");
    KnownLocations();
  }

  /** A row that writes the payload and at most reads elsewhere. */
  ghost predicate PayloadOnly(row: Row) {
    Mark(row, "Payload") == "R/W"
    && forall i :: 0 <= i < |row| ==> row[i].location == "Payload" || row[i].mark == "null" || row[i].mark == "R"
  }

  lemma PayloadOnlyAdmits(first: Row, second: Row)
    requires PayloadOnly(first) && PayloadOnly(second)
    ensures Parallelizable(first, second) && PAYLOAD in ProfileOf(first).writeSet
  {
    hide Mark, LOCATIONS;
    assert LocationOf(PAYLOAD) == "Payload";
  }

  /** Two functions of the shipped table that write the same field and are
      admitted with each other both ways. */
  lemma AdmittedBothWays()
    ensures Parallelizable(RuntimeRow(compressor), CISCO_IOS) && Parallelizable(CISCO_IOS, RuntimeRow(compressor))
    ensures PAYLOAD in ProfileOf(RuntimeRow(compressor)).writeSet && PAYLOAD in ProfileOf(CISCO_IOS).writeSet
  {
    hide Mark, Parallelizable, ProfileOf;
    CiscoMark();
    CompressorMark();
    PayloadOnlyAdmits(RuntimeRow(compressor), CISCO_IOS);
    PayloadOnlyAdmits(CISCO_IOS, RuntimeRow(compressor));
  }
}
