/** The peer-to-peer link controller: which pairs of devices may copy directly. */
module PeerToPeer {

  const MAX_LINKS := 8

  datatype P2pStatus = UNKNOWN | COPY_NOT_ALLOWED | COPY_ALLOWED

  /** What the driver answers during one call: return codes (0 is success) and abilities. */
  datatype Driver = Driver(
    canCode: int, can: int,
    canBackCode: int, canBack: int,
    enableCode: int, enableBackCode: int)

  datatype Outcome = Access(allowed: bool) | NotADevice(device: int) | AclError(code: int)

  type Row = seq<P2pStatus>

  /** n devices, the n rows of the cache, and the number of allowed cells in each row. */
  datatype Links = Links(n: nat, rows: seq<Row>, count: seq<int>)

  // ----- Cells and rows of the flattened matrix -----

  lemma CellInRange(n: nat, i: nat, j: nat)
    requires i < n && j < n
    ensures 0 <= i * n <= i * n + j < (i + 1) * n <= n * n
  {
    RowStart(n, i);
    RowsApart(n, i, n);
  }

  lemma RowStart(n: nat, i: nat)
    ensures 0 <= i * n && (i + 1) * n == i * n + n
  {
  }

  lemma {:induction false} RowsApart(n: nat, i: nat, k: nat)
    requires i < k
    ensures (i + 1) * n <= k * n
  {
    if i + 1 < k {
      RowStart(n, k - 1);
      RowsApart(n, i, k - 1);
    }
  }

  function RowOf(cache: seq<P2pStatus>, n: nat, i: nat): (r: Row)
    requires i < n && |cache| == n * n
    ensures |r| == n
    ensures forall j :: 0 <= j < n ==> 0 <= i * n + j < |cache| && r[j] == cache[i * n + j]
  {
    CellInRange(n, i, 0);
    assert (i + 1) * n == i * n + n;
    cache[i * n..i * n + n]
  }

  function Matrix(cache: seq<P2pStatus>, n: nat): seq<Row>
    requires |cache| == n * n
  {
    seq(n, i requires 0 <= i < n => RowOf(cache, n, i))
  }

  /** Writes cell (i, j). */
  function Put(rows: seq<Row>, i: nat, j: nat, v: P2pStatus): seq<Row>
    requires i < |rows| && j < |rows[i]|
  {
    rows[i := rows[i][j := v]]
  }

  /** A write to the flattened cache touches cell (i, j) of the matrix and nothing else. */
  lemma FlatPut(cache: seq<P2pStatus>, n: nat, i: nat, j: nat, v: P2pStatus)
    requires i < n && j < n && |cache| == n * n
    ensures 0 <= i * n + j < n * n
    ensures Matrix(cache[i * n + j := v], n) == Put(Matrix(cache, n), i, j, v)
  {
    CellInRange(n, i, j);
    forall k | 0 <= k < n ensures Matrix(cache[i * n + j := v], n)[k] == Put(Matrix(cache, n), i, j, v)[k] {
      FlatPutRow(cache, n, i, j, v, k);
    }
  }

  lemma FlatPutRow(cache: seq<P2pStatus>, n: nat, i: nat, j: nat, v: P2pStatus, k: nat)
    requires i < n && j < n && k < n && |cache| == n * n && 0 <= i * n + j < n * n
    ensures RowOf(cache[i * n + j := v], n, k) ==
            if k == i then RowOf(cache, n, i)[j := v] else RowOf(cache, n, k)
  {
    CellInRange(n, k, 0);
    if k < i {
      RowsApart(n, k, i);
    } else if i < k {
      RowsApart(n, i, k);
    }
  }

  function CountAllowed(row: Row): nat {
    if row == [] then 0
    else CountAllowed(row[..|row| - 1]) + if row[|row| - 1] == COPY_ALLOWED then 1 else 0
  }

  lemma {:induction false} CountUpdate(row: Row, j: nat, v: P2pStatus)
    requires j < |row| && row[j] != COPY_ALLOWED
    ensures CountAllowed(row[j := v]) == CountAllowed(row) + if v == COPY_ALLOWED then 1 else 0
  {
    var m := |row| - 1;
    if j == m {
      assert row[j := v][..m] == row[..m];
    } else {
      assert row[j := v][..m] == row[..m][j := v];
      CountUpdate(row[..m], j, v);
    }
  }

  // ----- The invariant -----

  /** The matrix is symmetric with an all-allowed diagonal; each counter is the number
      of allowed cells in its row, between 1 and 8. */
  ghost predicate Valid(l: Links) {
    && Square(l)
    && (forall i, j :: 0 <= i < l.n && 0 <= j < l.n ==> l.rows[i][j] == l.rows[j][i])
    && (forall i :: 0 <= i < l.n ==> l.rows[i][i] == COPY_ALLOWED)
    && (forall i :: 0 <= i < l.n ==> l.count[i] == CountAllowed(l.rows[i]) <= MAX_LINKS)
  }

  predicate Square(l: Links) {
    |l.rows| == l.n && |l.count| == l.n && forall i :: 0 <= i < l.n ==> |l.rows[i]| == l.n
  }

  /** Both cells of the pair (s, d) take the value v. */
  function Decide(l: Links, s: nat, d: nat, v: P2pStatus): Links
    requires Square(l) && s < l.n && d < l.n
  {
    l.(rows := Put(Put(l.rows, s, d, v), d, s, v))
  }

  function Linked(l: Links, s: nat, d: nat): Links
    requires Square(l) && s < l.n && d < l.n && s != d
  {
    Decide(l, s, d, COPY_ALLOWED).(count := l.count[s := l.count[s] + 1][d := l.count[d] + 1])
  }

  lemma DecideAt(l: Links, s: nat, d: nat, v: P2pStatus, i: nat, j: nat)
    requires Square(l) && s < l.n && d < l.n && i < l.n && j < l.n
    ensures Square(Decide(l, s, d, v))
    ensures Decide(l, s, d, v).rows[i][j] ==
            if (i == s && j == d) || (i == d && j == s) then v else l.rows[i][j]
  {
  }

  lemma DecideCount(l: Links, s: nat, d: nat, v: P2pStatus, i: nat)
    requires Square(l) && s < l.n && d < l.n && s != d && i < l.n
    requires l.rows[s][d] == UNKNOWN && l.rows[d][s] == UNKNOWN
    ensures CountAllowed(Decide(l, s, d, v).rows[i]) ==
            CountAllowed(l.rows[i]) + if v == COPY_ALLOWED && (i == s || i == d) then 1 else 0
  {
    if i == s {
      CountUpdate(l.rows[s], d, v);
    } else if i == d {
      CountUpdate(l.rows[d], s, v);
    }
  }

  lemma RefuseKeepsValid(l: Links, s: nat, d: nat)
    requires Valid(l) && s < l.n && d < l.n && l.rows[s][d] == UNKNOWN
    ensures Valid(Decide(l, s, d, COPY_NOT_ALLOWED))
  {
    var l' := Decide(l, s, d, COPY_NOT_ALLOWED);
    forall i, j | 0 <= i < l.n && 0 <= j < l.n ensures l'.rows[i][j] == l'.rows[j][i] {
      DecideAt(l, s, d, COPY_NOT_ALLOWED, i, j);
      DecideAt(l, s, d, COPY_NOT_ALLOWED, j, i);
    }
    forall i | 0 <= i < l.n
      ensures l'.rows[i][i] == COPY_ALLOWED && l'.count[i] == CountAllowed(l'.rows[i])
    {
      DecideAt(l, s, d, COPY_NOT_ALLOWED, i, i);
      DecideCount(l, s, d, COPY_NOT_ALLOWED, i);
    }
  }

  lemma LinkKeepsValid(l: Links, s: nat, d: nat)
    requires Valid(l) && s < l.n && d < l.n && l.rows[s][d] == UNKNOWN
    requires l.count[s] < MAX_LINKS && l.count[d] < MAX_LINKS
    ensures s != d && Valid(Linked(l, s, d))
  {
    var l' := Linked(l, s, d);
    forall i, j | 0 <= i < l.n && 0 <= j < l.n ensures l'.rows[i][j] == l'.rows[j][i] {
      DecideAt(l, s, d, COPY_ALLOWED, i, j);
      DecideAt(l, s, d, COPY_ALLOWED, j, i);
    }
    forall i | 0 <= i < l.n
      ensures l'.rows[i][i] == COPY_ALLOWED && l'.count[i] == CountAllowed(l'.rows[i]) <= MAX_LINKS
    {
      DecideAt(l, s, d, COPY_ALLOWED, i, i);
      DecideCount(l, s, d, COPY_ALLOWED, i);
    }
  }

  // ----- One request, and runs of requests -----

  ghost predicate InRange(l: Links, device: int) {
    0 <= device < l.n
  }

  /** What one call leaves behind. */
  ghost function After(l: Links, s: int, d: int, driver: Driver): Links
    requires Valid(l)
  {
    if !InRange(l, s) || !InRange(l, d) || l.rows[s][d] != UNKNOWN then l
    else if l.count[s] >= MAX_LINKS || l.count[d] >= MAX_LINKS then Decide(l, s, d, COPY_NOT_ALLOWED)
    else if driver.canCode != 0 || driver.canBackCode != 0 then l
    else if driver.can == 0 || driver.canBack == 0 then Decide(l, s, d, COPY_NOT_ALLOWED)
    else if driver.enableCode != 0 || driver.enableBackCode != 0 then l
    else LinkKeepsValid(l, s, d); Linked(l, s, d)
  }

  lemma AfterKeepsValid(l: Links, s: int, d: int, driver: Driver)
    requires Valid(l)
    ensures Valid(After(l, s, d, driver)) && After(l, s, d, driver).n == l.n
  {
    if InRange(l, s) && InRange(l, d) && l.rows[s][d] == UNKNOWN {
      RefuseKeepsValid(l, s, d);
      if l.count[s] < MAX_LINKS && l.count[d] < MAX_LINKS {
        LinkKeepsValid(l, s, d);
      }
    }
  }

  lemma AfterKeepsDecided(l: Links, s: int, d: int, driver: Driver, i: nat, j: nat)
    requires Valid(l) && i < l.n && j < l.n && l.rows[i][j] != UNKNOWN
    ensures Valid(After(l, s, d, driver)) && After(l, s, d, driver).n == l.n
    ensures After(l, s, d, driver).rows[i][j] == l.rows[i][j]
  {
    AfterKeepsValid(l, s, d, driver);
    if InRange(l, s) && InRange(l, d) && l.rows[s][d] == UNKNOWN {
      assert l.rows[d][s] == UNKNOWN;
      DecideAt(l, s, d, COPY_NOT_ALLOWED, i, j);
      DecideAt(l, s, d, COPY_ALLOWED, i, j);
    }
  }

  datatype Request = Request(source: int, dest: int, driver: Driver)

  ghost function AfterAll(l: Links, requests: seq<Request>): (l': Links)
    requires Valid(l)
    ensures Valid(l') && l'.n == l.n
    decreases |requests|
  {
    if requests == [] then l
    else
      var r := requests[0];
      AfterKeepsValid(l, r.source, r.dest, r.driver);
      AfterAll(After(l, r.source, r.dest, r.driver), requests[1..])
  }

  /** Over every sequence of requests and every behaviour of the driver, a decided
      pair keeps its answer, in both directions. */
  lemma {:induction false} DecisionsAreFinal(l: Links, requests: seq<Request>, i: nat, j: nat)
    requires Valid(l) && i < l.n && j < l.n && l.rows[i][j] != UNKNOWN
    ensures var l' := AfterAll(l, requests);
            l'.rows[i][j] == l'.rows[j][i] == l.rows[i][j]
    decreases |requests|
  {
    if requests != [] {
      var r := requests[0];
      AfterKeepsDecided(l, r.source, r.dest, r.driver, i, j);
      DecisionsAreFinal(After(l, r.source, r.dest, r.driver), requests[1..], i, j);
    }
  }

  /** Every device is allowed to copy to at most eight devices, itself included,
      after any sequence of requests; and if i may copy to j then j may copy to i. */
  lemma NeverMoreThanEightLinks(l: Links, requests: seq<Request>, i: nat)
    requires Valid(l) && i < l.n
    ensures var l' := AfterAll(l, requests);
            && CountAllowed(l'.rows[i]) <= 8
            && l'.rows[i][i] == COPY_ALLOWED
            && forall j :: 0 <= j < l.n && l'.rows[i][j] == COPY_ALLOWED ==> l'.rows[j][i] == COPY_ALLOWED
  {
    var l' := AfterAll(l, requests);
    assert l'.count[i] == CountAllowed(l'.rows[i]);
  }

  /** The pair is undecided and has room, and the driver says one direction cannot work. */
  ghost predicate Unreachable(l: Links, s: int, d: int, driver: Driver)
    requires Valid(l)
  {
    && InRange(l, s) && InRange(l, d) && l.rows[s][d] == UNKNOWN
    && l.count[s] < MAX_LINKS && l.count[d] < MAX_LINKS
    && driver.canCode == 0 && driver.canBackCode == 0 && (driver.can == 0 || driver.canBack == 0)
  }

  // ----- The controller -----

  /** The first i diagonal cells are allowed, everything else is unknown. */
  ghost predicate DiagonalUpTo(rows: seq<Row>, n: nat, i: nat) {
    && |rows| == n
    && (forall k :: 0 <= k < n ==> |rows[k]| == n)
    && forall k, j :: 0 <= k < n && 0 <= j < n ==>
         rows[k][j] == if k == j && k < i then COPY_ALLOWED else UNKNOWN
  }

  lemma DiagonalIsValid(rows: seq<Row>, n: nat)
    requires DiagonalUpTo(rows, n, n)
    ensures Valid(Links(n, rows, seq(n, _ => 1)))
  {
    forall i | 0 <= i < n ensures CountAllowed(rows[i]) == 1 {
      OnlyOneAllowed(rows[i], i);
    }
  }

  class NpuP2pCtrl {
    const numDevices: nat
    const cache: array<P2pStatus>
    const enabledCount: array<int>

    ghost predicate Allocated() {
      cache.Length == numDevices * numDevices && enabledCount.Length == numDevices
    }

    ghost function View(): Links
      requires Allocated()
      reads cache, enabledCount
    {
      Links(numDevices, Matrix(cache[..], numDevices), enabledCount[..])
    }

    ghost predicate Sound()
      reads cache, enabledCount
    {
      Allocated() && Valid(View())
    }

    constructor (n: nat)
      ensures numDevices == n && fresh(cache) && fresh(enabledCount)
      ensures Sound() && DiagonalUpTo(View().rows, n, n)
    {
      numDevices := n;
      enabledCount := new int[n](_ => 1);
      cache := new P2pStatus[n * n](_ => UNKNOWN);
      new;
      for i := 0 to n
        invariant DiagonalUpTo(Matrix(cache[..], n), n, i)
        invariant enabledCount[..] == seq(n, _ => 1)
      {
        FlatPut(cache[..], n, i, i, COPY_ALLOWED);
        ghost var was := cache[..];
        cache[i * n + i] := COPY_ALLOWED;
        assert cache[..] == was[i * n + i := COPY_ALLOWED];
      }
      DiagonalIsValid(Matrix(cache[..], n), n);
    }

    /** Writes the answer for both directions of a pair. */
    method Record(source: int, dest: int, v: P2pStatus)
      requires Sound() && InRange(View(), source) && InRange(View(), dest)
      modifies cache
      ensures View() == old(Decide(View(), source, dest, v))
    {
      ghost var was := cache[..];
      FlatPut(was, numDevices, source, dest, v);
      cache[source * numDevices + dest] := v;
      ghost var half := cache[..];
      assert half == was[source * numDevices + dest := v];
      FlatPut(half, numDevices, dest, source, v);
      cache[dest * numDevices + source] := v;
      assert cache[..] == half[dest * numDevices + source := v];
    }

    method Lookup(source: int, dest: int) returns (v: P2pStatus)
      requires Sound() && InRange(View(), source) && InRange(View(), dest)
      ensures v == View().rows[source][dest]
    {
      CellInRange(numDevices, source, dest);
      v := cache[source * numDevices + dest];
    }

    /** Records a new link and counts it at both ends. */
    method Link(source: int, dest: int)
      requires Sound() && InRange(View(), source) && InRange(View(), dest)
      requires source != dest
      modifies cache, enabledCount
      ensures View() == old(Linked(View(), source, dest))
    {
      Record(source, dest, COPY_ALLOWED);
      enabledCount[source] := enabledCount[source] + 1;
      enabledCount[dest] := enabledCount[dest] + 1;
    }

    /** driver holds what the ACL calls of this invocation answer; flag is set when
        the devices cannot reach each other. */
    method GetP2pAccess(source: int, dest: int, driver: Driver) returns (out: Outcome, flag: bool)
      requires Sound()
      modifies cache, enabledCount
      ensures Sound()
      ensures View() == old(After(View(), source, dest, driver))
      ensures out == old(Answer(View(), source, dest, driver))
      ensures flag <==> old(Unreachable(View(), source, dest, driver))
    {
      AfterKeepsValid(View(), source, dest, driver);
      flag := false;
      if source < 0 || source >= numDevices {
        return NotADevice(source), flag;
      }
      if dest < 0 || dest >= numDevices {
        return NotADevice(dest), flag;
      }
      var known := Lookup(source, dest);
      if known != UNKNOWN {
        out := Access(known == COPY_ALLOWED);
      } else if enabledCount[source] >= MAX_LINKS || enabledCount[dest] >= MAX_LINKS {
        Record(source, dest, COPY_NOT_ALLOWED);
        out := Access(false);
      } else if driver.canCode != 0 {
        out := AclError(driver.canCode);
      } else if driver.canBackCode != 0 {
        out := AclError(driver.canBackCode);
      } else if driver.can == 0 || driver.canBack == 0 {
        Record(source, dest, COPY_NOT_ALLOWED);
        out, flag := Access(false), true;
      } else if driver.enableCode != 0 {
        out := AclError(driver.enableCode);
      } else if driver.enableBackCode != 0 {
        out := AclError(driver.enableBackCode);
      } else {
        LinkKeepsValid(View(), source, dest);
        Link(source, dest);
        out := Access(true);
      }
    }
  }

  /** The answer a call gives: what the cell says afterwards, or the error. */
  ghost function Answer(l: Links, s: int, d: int, driver: Driver): Outcome
    requires Valid(l)
  {
    if !InRange(l, s) then NotADevice(s)
    else if !InRange(l, d) then NotADevice(d)
    else if l.rows[s][d] != UNKNOWN then Access(l.rows[s][d] == COPY_ALLOWED)
    else if l.count[s] >= MAX_LINKS || l.count[d] >= MAX_LINKS then Access(false)
    else if driver.canCode != 0 then AclError(driver.canCode)
    else if driver.canBackCode != 0 then AclError(driver.canBackCode)
    else if driver.can == 0 || driver.canBack == 0 then Access(false)
    else if driver.enableCode != 0 then AclError(driver.enableCode)
    else if driver.enableBackCode != 0 then AclError(driver.enableBackCode)
    else Access(true)
  }

  /** An answer is the decided cell; an error leaves the pair undecided and everything
      as it was; and a fresh link needs room at both ends and both directions. */
  lemma AnswerMatchesCells(l: Links, s: int, d: int, driver: Driver)
    requires Valid(l)
    ensures var l', out := After(l, s, d, driver), Answer(l, s, d, driver);
            && Valid(l')
            && (out.Access? ==>
                  && 0 <= s < l.n && 0 <= d < l.n
                  && l'.rows[s][d] == l'.rows[d][s]
                  && l'.rows[s][d] == if out.allowed then COPY_ALLOWED else COPY_NOT_ALLOWED)
            && (!out.Access? ==> l' == l)
            && (out.AclError? ==> l.rows[s][d] == UNKNOWN)
            && (out.NotADevice? <==> !(0 <= s < l.n && 0 <= d < l.n))
  {
    AfterKeepsValid(l, s, d, driver);
    if InRange(l, s) && InRange(l, d) {
      DecideAt(l, s, d, COPY_NOT_ALLOWED, s, d);
      DecideAt(l, s, d, COPY_ALLOWED, s, d);
      assert After(l, s, d, driver).rows[s][d] == After(l, s, d, driver).rows[d][s];
    }
  }

  /** A pair decided by this call is refused exactly when one end already has eight
      allowed devices or a direction cannot work. */
  lemma RefusedExactlyWhen(l: Links, s: int, d: int, driver: Driver)
    requires Valid(l) && InRange(l, s) && InRange(l, d) && l.rows[s][d] == UNKNOWN
    requires Answer(l, s, d, driver).Access?
    ensures s != d
    ensures Answer(l, s, d, driver) == Access(false) <==>
            || CountAllowed(l.rows[s]) == 8 || CountAllowed(l.rows[d]) == 8
            || driver.can == 0 || driver.canBack == 0
  {
    assert l.count[s] == CountAllowed(l.rows[s]) && l.count[d] == CountAllowed(l.rows[d]);
  }

  /** The first of the return codes that is not success. */
  function FirstFailure(codes: seq<int>): (code: int)
    ensures code == 0 <==> forall i :: 0 <= i < |codes| ==> codes[i] == 0
    ensures code != 0 ==>
              exists i :: 0 <= i < |codes| && codes[i] == code && forall j :: 0 <= j < i ==> codes[j] == 0
  {
    if codes == [] then 0
    else if codes[0] != 0 then codes[0]
    else
      var code := FirstFailure(codes[1..]);
      assert forall i :: 0 < i < |codes| ==> codes[i] == codes[1..][i - 1];
      code
  }

  /** The driver calls of a request with room at both ends, as far as they go: both
      abilities are queried, then, if both directions can work, both are enabled. */
  function CodesConsulted(driver: Driver): seq<int> {
    [driver.canCode, driver.canBackCode] +
    if driver.can == 0 || driver.canBack == 0 then [] else [driver.enableCode, driver.enableBackCode]
  }

  /** For an undecided pair: without room at both ends the driver is not asked and the pair
      is refused; otherwise the first driver call that fails is the error reported, and
      when none fails the pair is linked exactly when both directions can work.  The flag
      tells the second kind of refusal from the first. */
  lemma FreshAnswerExactly(l: Links, s: int, d: int, driver: Driver)
    requires Valid(l) && InRange(l, s) && InRange(l, d) && l.rows[s][d] == UNKNOWN
    ensures var room := CountAllowed(l.rows[s]) < 8 && CountAllowed(l.rows[d]) < 8;
            var failure := FirstFailure(CodesConsulted(driver));
            && (Answer(l, s, d, driver) == if !room then Access(false)
                                           else if failure != 0 then AclError(failure)
                                           else Access(driver.can != 0 && driver.canBack != 0))
            && (Unreachable(l, s, d, driver) <==> room && Answer(l, s, d, driver) == Access(false))
  {
    assert l.count[s] == CountAllowed(l.rows[s]) && l.count[d] == CountAllowed(l.rows[d]);
    var codes := CodesConsulted(driver);
    assert codes[0] == driver.canCode && codes[1] == driver.canBackCode;
    if |codes| > 2 {
      assert codes[2] == driver.enableCode && codes[3] == driver.enableBackCode;
    }
  }

  /** A device out of range is reported, the source first. */
  lemma OutOfRangeExactly(l: Links, s: int, d: int, driver: Driver, device: int)
    requires Valid(l)
    ensures Answer(l, s, d, driver) == NotADevice(device) <==>
            || (device == s && !(0 <= s < l.n))
            || (device == d && 0 <= s < l.n && !(0 <= d < l.n))
    ensures !InRange(l, s) || !InRange(l, d) ==> !Unreachable(l, s, d, driver)
  {
  }

  /** A call decides at most its own pair: every other cell of the matrix stays as it is, a
      decided pair is answered from its cell, and an undecided one stays undecided exactly
      when the call reports an error. */
  lemma OnlyThePairChanges(l: Links, s: int, d: int, driver: Driver, i: nat, j: nat)
    requires Valid(l) && i < l.n && j < l.n
    ensures var l' := After(l, s, d, driver);
            && Valid(l') && l'.n == l.n
            && (l'.rows[i][j] != l.rows[i][j] <==>
                  && l.rows[i][j] == UNKNOWN
                  && ((i == s && j == d) || (i == d && j == s))
                  && Answer(l, s, d, driver).Access?)
            && (i == s && j == d && l.rows[i][j] != UNKNOWN ==>
                  Answer(l, s, d, driver) == Access(l.rows[i][j] == COPY_ALLOWED))
  {
    AfterKeepsValid(l, s, d, driver);
    if InRange(l, s) && InRange(l, d) && l.rows[s][d] == UNKNOWN {
      assert l.rows[d][s] == UNKNOWN;
      DecideAt(l, s, d, COPY_NOT_ALLOWED, i, j);
      DecideAt(l, s, d, COPY_ALLOWED, i, j);
    }
  }

  /** A new link adds one allowed device at each of its two ends and nowhere else;
      any other call adds none. */
  lemma LinksCountOnce(l: Links, s: int, d: int, driver: Driver, i: nat)
    requires Valid(l) && i < l.n
    ensures var l' := After(l, s, d, driver);
            && Valid(l') && l'.n == l.n
            && CountAllowed(l'.rows[i]) == CountAllowed(l.rows[i]) +
                 if l'.count != l.count && (i == s || i == d) then 1 else 0
  {
    AfterKeepsValid(l, s, d, driver);
    if InRange(l, s) && InRange(l, d) && l.rows[s][d] == UNKNOWN {
      assert l.rows[d][s] == UNKNOWN;
      DecideCount(l, s, d, COPY_NOT_ALLOWED, i);
      DecideCount(l, s, d, COPY_ALLOWED, i);
      if l.count[s] < MAX_LINKS && l.count[d] < MAX_LINKS {
        assert Linked(l, s, d).count[s] == l.count[s] + 1;
      }
    }
  }

  /** Asking again, in either direction, after anything else has happened, gives the same answer. */
  lemma AnswersAreStable(l: Links, s: int, d: int, driver: Driver, between: seq<Request>, later: Driver)
    requires Valid(l) && Answer(l, s, d, driver).Access?
    ensures Valid(After(l, s, d, driver))
    ensures var l' := AfterAll(After(l, s, d, driver), between);
            Answer(l', s, d, later) == Answer(l', d, s, later) == Answer(l, s, d, driver)
  {
    AnswerMatchesCells(l, s, d, driver);
    AfterKeepsValid(l, s, d, driver);
    DecisionsAreFinal(After(l, s, d, driver), between, s, d);
  }

  lemma {:induction false} OnlyOneAllowed(row: Row, i: nat)
    requires i < |row|
    requires forall j :: 0 <= j < |row| ==> (row[j] == COPY_ALLOWED <==> j == i)
    ensures CountAllowed(row) == 1
  {
    var m := |row| - 1;
    if i == m {
      NoneAllowed(row[..m]);
    } else {
      OnlyOneAllowed(row[..m], i);
    }
  }

  lemma {:induction false} NoneAllowed(row: Row)
    requires forall j :: 0 <= j < |row| ==> row[j] != COPY_ALLOWED
    ensures CountAllowed(row) == 0
  {
    if row != [] {
      NoneAllowed(row[..|row| - 1]);
    }
  }
}
