/** backend/controllers/scanController.js: the scan log of a car. Anyone may log
    a scan; only the car's owner may read its history. */
module ScanController {
  import opened Wrappers
  import opened Strings
  import opened Validators
  import opened Schema
  import opened Tables
  import opened Http
  import opened Backend
  import opened Database
  import opened JsNumbers

  /** `logScan` (lines 5-46), a public route. The row's timestamp is the
      database's `NOW()` and the answer's is a fresh `new Date()`; both are the
      instant the handler runs at. An id already in the log, a car id with no
      car row, or a phone or email too long for its column makes the database
      refuse the insert. */
  method LogScan(s: Store, carId: Field, scannerPhone: Field, scannerEmail: Field, notes: Field,
                 idSuffix: string, now: nat) returns (r: Response)
    requires s.Valid()
    modifies s
    ensures s.Valid()
    ensures s.users == old(s.users) && s.cars == old(s.cars) && s.qrCodes == old(s.qrCodes)
    ensures s.payments == old(s.payments) && s.kv == old(s.kv)
    ensures !Present(carId) || !Present(scannerPhone) || !Present(scannerEmail) ==>
      r == Fail(422, "Missing required fields: carId, scannerPhone, scannerEmail", "INVALID_REQUEST")
      && s.scans == old(s.scans)
    ensures Present(carId) && Present(scannerPhone) && Present(scannerEmail) ==>
      var row := Scan(GenerateScanId(now, idSuffix), carId.value, scannerPhone.value, scannerEmail.value,
                      if Present(notes) then notes else None, now);
      if ScanIdUsed(old(s.scans), row.id) || carId.value !in old(s.cars) || !ScanFits(row) then
        r == ServerError() && s.scans == old(s.scans)
      else
        s.scans == old(s.scans) + [row] && r == Ok(201, Activity(row))
  {
    if !Present(carId) || !Present(scannerPhone) || !Present(scannerEmail) {
      return Fail(422, "Missing required fields: carId, scannerPhone, scannerEmail", "INVALID_REQUEST");
    }
    var scanId := GenerateScanId(now, idSuffix);
    var row := Scan(scanId, carId.value, scannerPhone.value, scannerEmail.value,
                    if Present(notes) then notes else None, now);
    var added := AddScan(s.scans, s.cars, row);
    if added.None? {
      return ServerError();
    }
    s.scans := added.value;
    r := Ok(201, Activity(row));
  }

  const DefaultLimit: nat := 50
  const DefaultOffset: nat := 0

  /** `const { limit = 50 } = req.query` followed by `parseInt(limit)`: the default
      applies only when the parameter is absent; an empty one reads as NaN. */
  function QueryInt(f: Field, default: nat): (r: Option<int>)
    ensures f.None? ==> r == Some(default)
    ensures f.Some? ==> r == ParseInt(f.value)
  {
    if f.None? then Some(default) else ParseInt(f.value)
  }

  /** The bound a `from` or `to` parameter sets: none when the parameter is
      absent or empty, otherwise the instant `new Date(value)` gives, which
      parseDate answers with None for an Invalid Date. */
  function Bound(f: Field, parseDate: string -> Option<int>): Option<int> {
    if Present(f) then parseDate(f.value) else None
  }

  /** Every bound that is asked for denotes a valid date. */
  predicate BoundsValid(from: Field, to: Field, parseDate: string -> Option<int>) {
    (Present(from) ==> parseDate(from.value).Some?) && (Present(to) ==> parseDate(to.value).Some?)
  }

  /** `carId = ? AND timestamp >= ? AND timestamp <= ?`, each bound when set. */
  predicate Selected(sc: Scan, carId: string, lo: Option<int>, hi: Option<int>) {
    && sc.carId == carId
    && (lo.Some? ==> sc.timestamp >= lo.value)
    && (hi.Some? ==> sc.timestamp <= hi.value)
  }

  /** The scans the WHERE clause selects, in log order: each selected row as
      often as the log holds it, and nothing else. */
  function Selection(scans: Scans, carId: string, lo: Option<int>, hi: Option<int>): (m: Scans)
    ensures forall x :: multiset(m)[x] == if Selected(x, carId, lo, hi) then multiset(scans)[x] else 0
    ensures |m| <= |scans|
    decreases |scans|
  {
    if scans == [] then []
    else
      var rest := Selection(scans[1..], carId, lo, hi);
      assert scans == [scans[0]] + scans[1..];
      if Selected(scans[0], carId, lo, hi) then [scans[0]] + rest else rest
  }

  /** `ORDER BY timestamp DESC`. */
  predicate NewestFirst(xs: Scans) {
    forall i, j | 0 <= i < j < |xs| :: xs[i].timestamp >= xs[j].timestamp
  }

  /** A row no older than the head of a newest-first list can go in front of it. */
  lemma {:induction false} ConsNewestFirst(h: Scan, tail: Scans)
    requires NewestFirst(tail) && (tail == [] || tail[0].timestamp <= h.timestamp)
    ensures NewestFirst([h] + tail)
  {
    var r := [h] + tail;
    forall i, j | 0 <= i < j < |r|
      ensures r[i].timestamp >= r[j].timestamp
    {
      if i == 0 && j > 1 {
        assert tail[0].timestamp >= tail[j - 1].timestamp;
      }
    }
  }

  /** Inserts x after the scans newer than it. */
  function InsertByTime(x: Scan, ys: Scans): (r: Scans)
    requires NewestFirst(ys)
    ensures |r| == |ys| + 1 && (r[0] == x || (ys != [] && r[0] == ys[0]))
    ensures NewestFirst(r) && multiset(r) == multiset(ys) + multiset{x}
    decreases |ys|
  {
    if ys == [] then [x]
    else if ys[0].timestamp > x.timestamp then
      var tail := InsertByTime(x, ys[1..]);
      assert multiset(ys) == multiset{ys[0]} + multiset(ys[1..]) by {
        assert ys == [ys[0]] + ys[1..];
      }
      ConsNewestFirst(ys[0], tail);
      assert multiset([ys[0]] + tail) == multiset{ys[0]} + multiset(tail);
      [ys[0]] + tail
    else
      ConsNewestFirst(x, ys);
      [x] + ys
  }

  /** One ordering the database may produce. Rows with the same timestamp may
      come in any order, so the handler below does not rely on this one. */
  function SortNewestFirst(xs: Scans): (r: Scans)
    ensures NewestFirst(r) && multiset(r) == multiset(xs)
    decreases |xs|
  {
    if xs == [] then []
    else
      assert xs == [xs[0]] + xs[1..];
      InsertByTime(xs[0], SortNewestFirst(xs[1..]))
  }

  /** `LIMIT lim OFFSET off` on a non-negative limit and offset. */
  function Window(xs: Scans, offset: nat, limit: nat): (w: Scans)
    ensures |w| == if offset >= |xs| then 0 else if |xs| - offset < limit then |xs| - offset else limit
    ensures forall k | 0 <= k < |w| :: w[k] == xs[offset + k]
  {
    if offset >= |xs| then [] else if |xs| - offset < limit then xs[offset..] else xs[offset..offset + limit]
  }

  /** Two consecutive pages make up the page that spans both. */
  lemma ConsecutivePages(xs: Scans, offset: nat, a: nat, b: nat)
    ensures Window(xs, offset, a) + Window(xs, offset + a, b) == Window(xs, offset, a + b)
  {
    var w := Window(xs, offset, a) + Window(xs, offset + a, b);
    var v := Window(xs, offset, a + b);
    assert |w| == |v|;
    forall k | 0 <= k < |w|
      ensures w[k] == v[k]
    {
      if k < |Window(xs, offset, a)| {
        assert w[k] == Window(xs, offset, a)[k];
      } else {
        assert w[k] == Window(xs, offset + a, b)[k - |Window(xs, offset, a)|];
      }
    }
  }

  /** A page is a stretch of the ordered selection, so it is ordered too. */
  lemma WindowKeepsOrder(xs: Scans, offset: nat, limit: nat)
    requires NewestFirst(xs)
    ensures NewestFirst(Window(xs, offset, limit))
  {
    var w := Window(xs, offset, limit);
    forall i, j | 0 <= i < j < |w|
      ensures w[i].timestamp >= w[j].timestamp
    {
      assert w[i] == xs[offset + i] && w[j] == xs[offset + j];
    }
  }

  /** `getScanHistory` (lines 49-132). Only the owner of the car gets an answer
      past the 404. A limit or offset that is NaN or negative, or a bound that
      is an Invalid Date, makes the database refuse the statement: a 500. The
      page is a stretch of the selected scans in some newest-first order, the
      total counts the whole selection, and limit and offset are echoed. */
  method GetScanHistory(cars: Cars, scans: Scans, userId: string, carId: string,
                        limit: Field, offset: Field, from: Field, to: Field,
                        parseDate: string -> Option<int>) returns (r: Response)
    ensures !Owns(cars, userId, carId) ==> r == Fail(404, "Car not found", "CAR_NOT_FOUND")
    ensures Owns(cars, userId, carId) && !HistoryArgsOk(limit, offset, from, to, parseDate) ==>
      r == ServerError()
    ensures Owns(cars, userId, carId) && HistoryArgsOk(limit, offset, from, to, parseDate) ==>
      var lim := QueryInt(limit, DefaultLimit).value;
      var off := QueryInt(offset, DefaultOffset).value;
      var selected := Selection(scans, carId, Bound(from, parseDate), Bound(to, parseDate));
      r.status == 200 && r.body.Success? && r.body.payload.ScanPage?
      && r.body.payload.total == |selected|
      && r.body.payload.limit == lim && r.body.payload.offset == off
      && exists ordered :: IsOrdering(ordered, selected) && r.body.payload.scans == Window(ordered, off, lim)
  {
    if !Owns(cars, userId, carId) {
      return Fail(404, "Car not found", "CAR_NOT_FOUND");
    }
    if !HistoryArgsOk(limit, offset, from, to, parseDate) {
      return ServerError();
    }
    var lo, hi := Bound(from, parseDate), Bound(to, parseDate);
    var lim: nat := QueryInt(limit, DefaultLimit).value;
    var off: nat := QueryInt(offset, DefaultOffset).value;
    var selected := Selection(scans, carId, lo, hi);
    var sorted := SortNewestFirst(selected);
    assert IsOrdering(sorted, selected);
    var ordered :| IsOrdering(ordered, selected);
    r := Ok(200, ScanPage(Window(ordered, off, lim), |selected|, lim, off));
  }

  /** The arguments the database accepts: a limit and an offset that are
      numbers and not negative, and valid dates for the bounds. */
  predicate HistoryArgsOk(limit: Field, offset: Field, from: Field, to: Field, parseDate: string -> Option<int>) {
    && QueryInt(limit, DefaultLimit).Some? && QueryInt(limit, DefaultLimit).value >= 0
    && QueryInt(offset, DefaultOffset).Some? && QueryInt(offset, DefaultOffset).value >= 0
    && BoundsValid(from, to, parseDate)
  }

  /** An order `ORDER BY timestamp DESC` may return the selection in. */
  predicate IsOrdering(ordered: Scans, selected: Scans) {
    NewestFirst(ordered) && multiset(ordered) == multiset(selected)
  }

  /** Whatever order ties come in, a page holds at most `limit` scans, only
      selected ones, newest first, and no more than the selection has past the
      offset. */
  lemma PageBounds(ordered: Scans, selected: Scans, offset: nat, limit: nat)
    requires IsOrdering(ordered, selected)
    ensures |Window(ordered, offset, limit)| <= limit
    ensures |Window(ordered, offset, limit)| + offset <= |selected| || |Window(ordered, offset, limit)| == 0
    ensures NewestFirst(Window(ordered, offset, limit))
    ensures forall x | x in Window(ordered, offset, limit) :: x in multiset(selected)
  {
    assert |ordered| == |multiset(ordered)| == |selected|;
    WindowKeepsOrder(ordered, offset, limit);
    var w := Window(ordered, offset, limit);
    forall x | x in w
      ensures x in multiset(selected)
    {
      var k :| 0 <= k < |w| && w[k] == x;
      assert ordered[offset + k] in multiset(ordered);
    }
  }

  /** Two newest-first orderings of the same rows with distinct timestamps start
      with the same row: the newest one. */
  lemma {:induction false} NewestComesFirst(a: Scans, b: Scans)
    requires a != [] && NewestFirst(a) && NewestFirst(b) && multiset(a) == multiset(b)
    requires forall i, j | 0 <= i < j < |a| :: a[i].timestamp != a[j].timestamp
    ensures b != [] && a[0] == b[0]
  {
    assert a[0] in multiset(b);
    assert b != [];
    assert b[0] in multiset(a);
    var i :| 0 <= i < |a| && a[i] == b[0];
    var j :| 0 <= j < |b| && b[j] == a[0];
    assert a[0].timestamp >= b[0].timestamp;
    assert b[0].timestamp >= a[0].timestamp;
  }

  /** Removing the same first row from two permutations leaves permutations. */
  lemma {:induction false} SameHeadTails(a: Scans, b: Scans)
    requires a != [] && b != [] && a[0] == b[0] && multiset(a) == multiset(b)
    ensures multiset(a[1..]) == multiset(b[1..])
  {
    assert a == [a[0]] + a[1..];
    assert b == [b[0]] + b[1..];
    assert multiset(a[1..]) == multiset(a) - multiset{a[0]};
    assert multiset(b[1..]) == multiset(b) - multiset{b[0]};
  }

  /** When no two selected scans share a timestamp, the order is forced: every
      admissible ordering is the same sequence. */
  lemma {:induction false} OrderingUnique(a: Scans, b: Scans)
    requires NewestFirst(a) && NewestFirst(b) && multiset(a) == multiset(b)
    requires forall i, j | 0 <= i < j < |a| :: a[i].timestamp != a[j].timestamp
    ensures a == b
    decreases |a|
  {
    if a == [] {
      assert |b| == |multiset(b)| == 0;
    } else {
      NewestComesFirst(a, b);
      SameHeadTails(a, b);
      OrderingUnique(a[1..], b[1..]);
      assert a == [a[0]] + a[1..];
      assert b == [b[0]] + b[1..];
    }
  }

  /** The scan a log call answers with is selected by a history request for its
      car whose bounds contain its instant. */
  lemma LoggedScanSelected(scans: Scans, row: Scan, lo: Option<int>, hi: Option<int>)
    requires (lo.Some? ==> lo.value <= row.timestamp) && (hi.Some? ==> row.timestamp <= hi.value)
    ensures var m := Selection(scans + [row], row.carId, lo, hi);
      multiset(m)[row] == multiset(Selection(scans, row.carId, lo, hi))[row] + 1
  {
    assert multiset(scans + [row]) == multiset(scans) + multiset{row};
  }
}
