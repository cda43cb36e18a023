/**
 * What the results panel derives from a workflow result
 * (src/components/WorkflowResults/WorkflowResults.tsx): the list of distinct
 * VINs, the vehicle shown for a VIN in each file, the overall status per row,
 * the description fallback, the status badges, and which field-detail rows
 * and cells are shown. The match statuses themselves are inputs: the
 * application never computes them.
 */
module WorkflowResults {
  import opened Common
  import opened Domain

  const Unknown: string := "UNKNOWN"
  const NoDescription: string := "No description"
  const NotAvailable: string := "N/A"

  /** The fields of the field-detail table, in column order. */
  const DetailFields: seq<string> :=
    ["vin", "description", "vehicleCost", "vehiclePremium", "collisionDeductible", "comprehensiveDeductible"]

  /** The colour of a status badge. */
  datatype Badge = Green | Red | Yellow | Gray

  // ---------------------------------------------------------------------------
  // The distinct VINs

  /** `vehicles.map((v) => v.vin)` */
  function Vins(vehicles: seq<Vehicle>): (r: seq<string>)
    ensures |r| == |vehicles|
    ensures forall i :: 0 <= i < |vehicles| ==> r[i] == vehicles[i].vin
  {
    seq(|vehicles|, i requires 0 <= i < |vehicles| => vehicles[i].vin)
  }

  /**
   * `Array.from(new Set(xs))`: the values are inserted one after the other and
   * a value already present is not inserted again.
   */
  function Distinct(xs: seq<string>): seq<string>
    decreases |xs|
  {
    if xs == [] then []
    else
      var d := Distinct(xs[..|xs| - 1]);
      if xs[|xs| - 1] in d then d else d + [xs[|xs| - 1]]
  }

  /** The VINs of both files, each once, without the empty VIN (`filter(Boolean)`). */
  function UniqueVins(r: WorkflowResult): seq<string> {
    NonEmpty(Distinct(Vins(r.rawList1 + r.rawList2)))
  }

  /** `r` lists values in the order in which they first appear in `xs`. */
  ghost predicate FirstSeenOrder(xs: seq<string>, r: seq<string>) {
    forall i, j, k :: 0 <= i < j < |r| && 0 <= k < |xs| && xs[k] == r[j] ==> r[i] in xs[..k]
  }

  lemma {:induction false} DistinctSpec(xs: seq<string>)
    ensures forall v :: v in Distinct(xs) <==> v in xs
    ensures NoDuplicates(Distinct(xs))
    ensures FirstSeenOrder(xs, Distinct(xs))
    decreases |xs|
  {
    if xs != [] {
      var p, x := xs[..|xs| - 1], xs[|xs| - 1];
      assert xs == p + [x];
      DistinctSpec(p);
      var d := Distinct(p);
      if x !in d {
        var r := d + [x];
        forall i, j, k | 0 <= i < j < |r| && 0 <= k < |xs| && xs[k] == r[j]
          ensures r[i] in xs[..k]
        {
          if k < |p| {
            assert xs[k] == p[k] && p[..k] == xs[..k];
          } else {
            assert r[i] in p && xs[..k] == p;
          }
        }
      } else {
        forall i, j, k | 0 <= i < j < |d| && 0 <= k < |xs| && xs[k] == d[j]
          ensures d[i] in xs[..k]
        {
          if k < |p| {
            assert xs[k] == p[k] && p[..k] == xs[..k];
          } else {
            assert d[i] in p && xs[..k] == p;
          }
        }
      }
    }
  }

  /** `NonEmpty(s)` picks elements of `s` at strictly increasing positions. */
  lemma {:induction false} NonEmptyPositions(s: seq<string>) returns (pos: seq<nat>)
    ensures |pos| == |NonEmpty(s)|
    ensures forall k :: 0 <= k < |pos| ==> pos[k] < |s| && NonEmpty(s)[k] == s[pos[k]]
    ensures forall k, l :: 0 <= k < l < |pos| ==> pos[k] < pos[l]
    decreases |s|
  {
    if |s| == 0 {
      pos := [];
    } else {
      var rest := NonEmptyPositions(s[1..]);
      assert NonEmpty(s) == (if s[0] != "" then [s[0]] else []) + NonEmpty(s[1..]);
      var shifted := seq(|rest|, k requires 0 <= k < |rest| => rest[k] + 1);
      if s[0] == "" {
        pos := shifted;
      } else {
        pos := [0] + shifted;
      }
    }
  }

  /** Dropping the empty strings keeps a list free of duplicates and keeps its order. */
  lemma NonEmptyKeepsOrder(xs: seq<string>, s: seq<string>)
    requires NoDuplicates(s) && FirstSeenOrder(xs, s)
    ensures NoDuplicates(NonEmpty(s)) && FirstSeenOrder(xs, NonEmpty(s))
  {
    var pos := NonEmptyPositions(s);
    var r := NonEmpty(s);
    forall i, j | 0 <= i < j < |r| ensures r[i] != r[j] {
      assert r[i] == s[pos[i]] && r[j] == s[pos[j]];
    }
    forall i, j, k | 0 <= i < j < |r| && 0 <= k < |xs| && xs[k] == r[j]
      ensures r[i] in xs[..k]
    {
      assert r[i] == s[pos[i]] && r[j] == s[pos[j]];
    }
  }

  /** A VIN is among those of the two files together exactly when a vehicle of either file has it. */
  lemma VinsOfBoth(a: seq<Vehicle>, b: seq<Vehicle>, v: string)
    ensures v in Vins(a + b) <==>
      (exists i :: 0 <= i < |a| && a[i].vin == v) || (exists i :: 0 <= i < |b| && b[i].vin == v)
  {
    var xs := Vins(a + b);
    if v in xs {
      var k :| 0 <= k < |xs| && xs[k] == v;
      if k >= |a| {
        assert b[k - |a|].vin == v;
      } else {
        assert a[k].vin == v;
      }
    }
    if exists i :: 0 <= i < |a| && a[i].vin == v {
      var i :| 0 <= i < |a| && a[i].vin == v;
      assert xs[i] == v;
    }
    if exists i :: 0 <= i < |b| && b[i].vin == v {
      var i :| 0 <= i < |b| && b[i].vin == v;
      assert xs[|a| + i] == v;
    }
  }

  /**
   * The VIN list names every non-empty VIN of either file, each exactly once,
   * in the order of first appearance in file 1 followed by file 2.
   */
  lemma UniqueVinsSpec(r: WorkflowResult)
    ensures forall v :: v in UniqueVins(r) <==>
      v != "" && ((exists i :: 0 <= i < |r.rawList1| && r.rawList1[i].vin == v) ||
                  (exists i :: 0 <= i < |r.rawList2| && r.rawList2[i].vin == v))
    ensures NoDuplicates(UniqueVins(r))
    ensures FirstSeenOrder(Vins(r.rawList1 + r.rawList2), UniqueVins(r))
  {
    var xs := Vins(r.rawList1 + r.rawList2);
    DistinctSpec(xs);
    NonEmptyMembers(Distinct(xs));
    NonEmptyKeepsOrder(xs, Distinct(xs));
    forall v ensures v in UniqueVins(r) <==>
      v != "" && ((exists i :: 0 <= i < |r.rawList1| && r.rawList1[i].vin == v) ||
                  (exists i :: 0 <= i < |r.rawList2| && r.rawList2[i].vin == v))
    {
      VinsOfBoth(r.rawList1, r.rawList2, v);
    }
  }

  // ---------------------------------------------------------------------------
  // Looking a vehicle up, the row status, the description

  /** `list.find((v) => v.vin === vin)`: the first vehicle with that VIN, if any. */
  function GetVehicleByVin(vin: string, list: seq<Vehicle>): (found: Option<Vehicle>)
    ensures found.None? <==> forall i :: 0 <= i < |list| ==> list[i].vin != vin
    ensures found.Some? ==> exists i :: 0 <= i < |list| && list[i] == found.value && found.value.vin == vin &&
                                        forall j :: 0 <= j < i ==> list[j].vin != vin
    decreases |list|
  {
    if list == [] then None
    else if list[0].vin == vin then Some(list[0])
    else
      var rest := GetVehicleByVin(vin, list[1..]);
      assert forall i :: 1 <= i < |list| ==> list[i] == list[1..][i - 1];
      rest
  }

  /** `result.matchResult[index] || "UNKNOWN"` */
  function GetMatchStatus(r: WorkflowResult, index: nat): (status: string)
    ensures status != ""
    ensures index < |r.matchResult| && r.matchResult[index] != "" ==> status == r.matchResult[index]
    ensures index >= |r.matchResult| || r.matchResult[index] == "" ==> status == Unknown
  {
    if index < |r.matchResult| && r.matchResult[index] != "" then r.matchResult[index] else Unknown
  }

  /** `vehicle1?.description || vehicle2?.description || "No description"` */
  function Description(vehicle1: Option<Vehicle>, vehicle2: Option<Vehicle>): (d: string)
    ensures d != ""
    ensures vehicle1.Some? && vehicle1.value.description != "" ==> d == vehicle1.value.description
    ensures (vehicle1.None? || vehicle1.value.description == "") && vehicle2.Some? && vehicle2.value.description != ""
            ==> d == vehicle2.value.description
    ensures (vehicle1.None? || vehicle1.value.description == "") && (vehicle2.None? || vehicle2.value.description == "")
            ==> d == NoDescription
  {
    if vehicle1.Some? && vehicle1.value.description != "" then vehicle1.value.description
    else if vehicle2.Some? && vehicle2.value.description != "" then vehicle2.value.description
    else NoDescription
  }

  /** The colour of the overall badge. */
  function OverallBadge(status: string): (b: Badge)
    ensures b == Green <==> status == "MATCH"
    ensures b == Red <==> status == "DIFFERENCE"
    ensures b == Gray <==> status != "MATCH" && status != "DIFFERENCE"
    ensures b != Yellow
  {
    if status == "MATCH" then Green
    else if status == "DIFFERENCE" then Red
    else Gray
  }

  /** One row of the main results table. */
  datatype ResultRow = ResultRow(
    vin: string,
    vehicle1: Option<Vehicle>,
    vehicle2: Option<Vehicle>,
    description: string,
    status: string,
    badge: Badge)

  function RowAt(r: WorkflowResult, index: nat, vin: string): ResultRow {
    var vehicle1 := GetVehicleByVin(vin, r.rawList1);
    var vehicle2 := GetVehicleByVin(vin, r.rawList2);
    var status := GetMatchStatus(r, index);
    ResultRow(vin, vehicle1, vehicle2, Description(vehicle1, vehicle2), status, OverallBadge(status))
  }

  /** `uniqueVins.map((vin, index) => ...)`: the main table, one row per distinct VIN. */
  function Rows(r: WorkflowResult): seq<ResultRow> {
    var vins := UniqueVins(r);
    seq(|vins|, i requires 0 <= i < |vins| => RowAt(r, i, vins[i]))
  }

  /**
   * Every row of the main table shows its VIN in at least one of the two
   * files, the first vehicle of each file with that VIN, and the status found
   * at the row's position (not looked up by VIN).
   */
  lemma RowsSpec(r: WorkflowResult, i: nat)
    requires i < |UniqueVins(r)|
    ensures |Rows(r)| == |UniqueVins(r)|
    ensures Rows(r)[i].vin == UniqueVins(r)[i] != ""
    ensures Rows(r)[i].vehicle1.Some? || Rows(r)[i].vehicle2.Some?
    ensures Rows(r)[i].vehicle1.Some? ==> Rows(r)[i].vehicle1.value.vin == Rows(r)[i].vin
    ensures Rows(r)[i].vehicle2.Some? ==> Rows(r)[i].vehicle2.value.vin == Rows(r)[i].vin
    ensures Rows(r)[i].status == GetMatchStatus(r, i)
  {
    UniqueVinsSpec(r);
    assert UniqueVins(r)[i] in UniqueVins(r);
  }

  // ---------------------------------------------------------------------------
  // The field-detail table

  /** `subFieldsMatchResult.some((m) => Object.keys(m).length > 0)`, scanning from the front. */
  function HasFieldDetails(subs: seq<map<string, string>>): (shown: bool)
    ensures shown <==> exists i :: 0 <= i < |subs| && subs[i] != map[]
    decreases |subs|
  {
    if subs == [] then false
    else if |subs[0]| > 0 then true
    else
      var rest := HasFieldDetails(subs[1..]);
      assert forall i :: 1 <= i < |subs| ==> subs[i] == subs[1..][i - 1];
      rest
  }

  /** Whether the detail row at `index` is drawn: a non-empty entry with a vehicle at that position. */
  predicate Emitted(r: WorkflowResult, index: nat) {
    index < |r.subFieldsMatchResult| && |r.subFieldsMatchResult[index]| > 0 &&
    (index < |r.rawList1| || index < |r.rawList2|)
  }

  datatype DetailCell = DetailCell(field: string, text: string, badge: Badge)

  /** A field-detail row; its first column shows `index + 1`. */
  datatype DetailRow = DetailRow(index: nat, cells: seq<DetailCell>) {
    function Label(): nat { index + 1 }
  }

  /** `subResult[field] || "N/A"` */
  function CellText(sub: map<string, string>, field: string): (text: string)
    ensures text != ""
    ensures field in sub && sub[field] != "" ==> text == sub[field]
    ensures field !in sub || sub[field] == "" ==> text == NotAvailable
  {
    if field in sub && sub[field] != "" then sub[field] else NotAvailable
  }

  /** The colour of a field-detail badge. */
  function CellBadge(sub: map<string, string>, field: string): (b: Badge)
    ensures b == Green <==> field in sub && sub[field] == "MATCH"
    ensures b == Yellow <==> field in sub && sub[field] == "NOT_FOUND"
    ensures b == Red <==> field in sub && sub[field] == "DIFFERENCE"
  {
    if field !in sub then Gray
    else if sub[field] == "MATCH" then Green
    else if sub[field] == "NOT_FOUND" then Yellow
    else if sub[field] == "DIFFERENCE" then Red
    else Gray
  }

  function DetailRowAt(r: WorkflowResult, index: nat): (row: DetailRow)
    requires index < |r.subFieldsMatchResult|
    ensures row.index == index && |row.cells| == |DetailFields|
    ensures forall k :: 0 <= k < |DetailFields| ==>
      row.cells[k].field == DetailFields[k] &&
      row.cells[k].text == CellText(r.subFieldsMatchResult[index], DetailFields[k]) &&
      row.cells[k].badge == CellBadge(r.subFieldsMatchResult[index], DetailFields[k])
  {
    var sub := r.subFieldsMatchResult[index];
    DetailRow(index, seq(|DetailFields|, k requires 0 <= k < |DetailFields| =>
      DetailCell(DetailFields[k], CellText(sub, DetailFields[k]), CellBadge(sub, DetailFields[k]))))
  }

  /** The positions from `from` on whose detail row is drawn, in increasing order. */
  function EmittedFrom(r: WorkflowResult, from: nat): (positions: seq<nat>)
    ensures forall k :: 0 <= k < |positions| ==> from <= positions[k] && Emitted(r, positions[k])
    ensures forall k, l :: 0 <= k < l < |positions| ==> positions[k] < positions[l]
    decreases |r.subFieldsMatchResult| - from
  {
    if from >= |r.subFieldsMatchResult| then []
    else
      var rest := EmittedFrom(r, from + 1);
      if Emitted(r, from) then
        var positions := [from] + rest;
        assert forall k :: 1 <= k < |positions| ==> positions[k] == rest[k - 1];
        positions
      else rest
  }

  /** Every emitted position from `from` on is listed; `k` is where it stands. */
  lemma {:induction false} EmittedFromComplete(r: WorkflowResult, from: nat, index: nat) returns (k: nat)
    requires from <= index && Emitted(r, index)
    ensures k < |EmittedFrom(r, from)| && EmittedFrom(r, from)[k] == index
    decreases |r.subFieldsMatchResult| - from
  {
    var rest := EmittedFrom(r, from + 1);
    if index == from {
      assert EmittedFrom(r, from) == [from] + rest;
      k := 0;
    } else {
      var j := EmittedFromComplete(r, from + 1, index);
      if Emitted(r, from) {
        assert EmittedFrom(r, from) == [from] + rest;
        k := j + 1;
      } else {
        assert EmittedFrom(r, from) == rest;
        k := j;
      }
    }
  }

  /**
   * `subFieldsMatchResult.map(...)` with the rows that render `null` left
   * out: one row per emitted position, each built from the entry at its
   * own position.
   */
  function DetailRows(r: WorkflowResult): (rows: seq<DetailRow>)
    ensures |rows| == |EmittedFrom(r, 0)|
    ensures forall k :: 0 <= k < |rows| ==> rows[k] == DetailRowAt(r, EmittedFrom(r, 0)[k])
  {
    var positions := EmittedFrom(r, 0);
    seq(|positions|, k requires 0 <= k < |positions| => DetailRowAt(r, positions[k]))
  }

  /**
   * A detail row is drawn for position i exactly when the entry at i is
   * non-empty and either file has a vehicle at position i; the rows are
   * chosen by position, not by VIN.
   */
  lemma DetailRowsSpec(r: WorkflowResult, index: nat)
    ensures (exists k :: 0 <= k < |DetailRows(r)| && DetailRows(r)[k].index == index) <==> Emitted(r, index)
    ensures forall k :: 0 <= k < |DetailRows(r)| ==> DetailRows(r)[k] == DetailRowAt(r, DetailRows(r)[k].index)
    ensures forall k, l :: 0 <= k < l < |DetailRows(r)| ==> DetailRows(r)[k].index < DetailRows(r)[l].index
  {
    var rows, positions := DetailRows(r), EmittedFrom(r, 0);
    assert forall k :: 0 <= k < |rows| ==> rows[k].index == positions[k];
    if Emitted(r, index) {
      var k := EmittedFromComplete(r, 0, index);
      assert rows[k].index == index;
    }
  }
}
