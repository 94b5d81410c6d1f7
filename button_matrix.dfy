/**
 * The 4x4 keypad (src/button_matrix.cpp): a debounce table holding, per key,
 * the last accepted level and when it was accepted; a scan that accepts a
 * change only once the debounce interval has passed and reports mapped
 * events; and the scan task's activity flag. The callback is modelled by the
 * sequence of events a scan hands to it.
 */
module ButtonMatrix {
  import opened Defines

  const ROWS: nat := 4
  const COLS: nat := 4

  /** The events a key can produce: run a stepper CW or CCW, or stop it. */
  datatype MatrixEvent =
    | NoEvent
    | M1Cw | M1Ccw | M1Stop
    | M2Cw | M2Ccw | M2Stop
    | M3Cw | M3Ccw | M3Stop

  datatype Action = TurnCw | TurnCcw | StopTurning

  /** The stepper an event is about (0 for NoEvent). */
  function EventMotor(e: MatrixEvent): nat
  {
    match e
    case NoEvent => 0
    case M1Cw | M1Ccw | M1Stop => 1
    case M2Cw | M2Ccw | M2Stop => 2
    case M3Cw | M3Ccw | M3Stop => 3
  }

  /** What an event asks its stepper to do. */
  function EventAction(e: MatrixEvent): Action
    requires e != NoEvent
  {
    match e
    case M1Cw | M2Cw | M3Cw => TurnCw
    case M1Ccw | M2Ccw | M3Ccw => TurnCcw
    case M1Stop | M2Stop | M3Stop => StopTurning
  }

  /**
   * `map_event`: the keys of rows 0-1 and columns 0-2 drive stepper `col + 1`,
   * row 0 clockwise and row 1 counter-clockwise while held, and stop it when
   * released; every other key maps to nothing.
   */
  function MapEvent(row: nat, col: nat, pressed: bool): (e: MatrixEvent)
    ensures e != NoEvent <==> row < 2 && col < 3
    ensures e != NoEvent ==> EventMotor(e) == col + 1
    ensures e != NoEvent ==>
              EventAction(e) == if !pressed then StopTurning else if row == 0 then TurnCw else TurnCcw
  {
    if row == 0 && col == 0 then (if pressed then M1Cw else M1Stop)
    else if row == 1 && col == 0 then (if pressed then M1Ccw else M1Stop)
    else if row == 0 && col == 1 then (if pressed then M2Cw else M2Stop)
    else if row == 1 && col == 1 then (if pressed then M2Ccw else M2Stop)
    else if row == 0 && col == 2 then (if pressed then M3Cw else M3Stop)
    else if row == 1 && col == 2 then (if pressed then M3Ccw else M3Stop)
    else NoEvent
  }

  predicate IsGrid<T>(g: seq<seq<T>>)
  {
    |g| == ROWS && forall r :: 0 <= r < ROWS ==> |g[r]| == COLS
  }

  /** The values of `prevPressed[][]` and `lastChangeMs[][]`, indexed `[row][col]`. */
  datatype Table = Table(prevPressed: seq<seq<bool>>, lastChangeMs: seq<seq<u32>>)

  predicate WellFormed(t: Table)
  {
    IsGrid(t.prevPressed) && IsGrid(t.lastChangeMs)
  }

  /** Both tables as their static initialisers leave them: released, changed at 0. */
  const InitialTable: Table :=
    var released := [false, false, false, false];
    var zero: seq<u32> := [0, 0, 0, 0];
    Table([released, released, released, released], [zero, zero, zero, zero])

  /** A key's reading is accepted when it differs from the stored level and has debounced. */
  predicate Accepts(prev: bool, lastChange: u32, reading: bool, now: u32)
  {
    reading != prev && WrapSub(now, lastChange) >= KEY_DEBOUNCE_MS
  }

  predicate CellAccepts(t: Table, readings: seq<seq<bool>>, now: u32, row: nat, col: nat)
    requires WellFormed(t) && IsGrid(readings) && row < ROWS && col < COLS
  {
    Accepts(t.prevPressed[row][col], t.lastChangeMs[row][col], readings[row][col], now)
  }

  /** The debounce table after a scan: each accepted key takes its reading and `now`. */
  function AfterScan(t: Table, readings: seq<seq<bool>>, now: u32): (t': Table)
    requires WellFormed(t) && IsGrid(readings)
    ensures WellFormed(t')
    ensures forall r, c :: 0 <= r < ROWS && 0 <= c < COLS ==>
              && t'.prevPressed[r][c] == (if CellAccepts(t, readings, now, r, c) then readings[r][c] else t.prevPressed[r][c])
              && t'.lastChangeMs[r][c] == (if CellAccepts(t, readings, now, r, c) then now else t.lastChangeMs[r][c])
  {
    Table(
      seq(ROWS, r requires 0 <= r < ROWS =>
        seq(COLS, c requires 0 <= c < COLS =>
          if CellAccepts(t, readings, now, r, c) then readings[r][c] else t.prevPressed[r][c])),
      seq(ROWS, r requires 0 <= r < ROWS =>
        seq(COLS, c requires 0 <= c < COLS =>
          if CellAccepts(t, readings, now, r, c) then now else t.lastChangeMs[r][c])))
  }

  /** The event (if any) that one key hands to the callback during a scan. */
  function CellEvents(t: Table, readings: seq<seq<bool>>, now: u32, registered: bool, row: nat, col: nat)
    : seq<MatrixEvent>
    requires WellFormed(t) && IsGrid(readings) && row < ROWS && col < COLS
  {
    if registered && CellAccepts(t, readings, now, row, col) && MapEvent(row, col, readings[row][col]) != NoEvent
    then [MapEvent(row, col, readings[row][col])]
    else []
  }

  /**
   * The events of the keys a scan visits before key (`row`, `col`): columns
   * outer, rows inner. Each is a real event, and none is emitted without a
   * registered callback.
   */
  function EventsBefore(t: Table, readings: seq<seq<bool>>, now: u32, registered: bool, col: nat, row: nat)
    : (es: seq<MatrixEvent>)
    requires WellFormed(t) && IsGrid(readings)
    requires col <= COLS && row <= ROWS && (col == COLS ==> row == 0)
    ensures forall i :: 0 <= i < |es| ==> es[i] != NoEvent
    ensures !registered ==> es == []
    ensures |es| <= col * ROWS + row
    decreases col, row
  {
    if row == 0 then
      (if col == 0 then [] else EventsBefore(t, readings, now, registered, col - 1, ROWS))
    else
      EventsBefore(t, readings, now, registered, col, row - 1) + CellEvents(t, readings, now, registered, row - 1, col)
  }

  /** Every event one whole scan emits, in emission order. */
  function ScanEvents(t: Table, readings: seq<seq<bool>>, now: u32, registered: bool): seq<MatrixEvent>
    requires WellFormed(t) && IsGrid(readings)
  {
    EventsBefore(t, readings, now, registered, COLS, 0)
  }

  /**
   * A key's stored level changes exactly when its change is accepted, and so
   * does its change time (an accepted change is at least 20 ms after the last).
   */
  lemma CellChangesIffAccepted(t: Table, readings: seq<seq<bool>>, now: u32, row: nat, col: nat)
    requires WellFormed(t) && IsGrid(readings) && row < ROWS && col < COLS
    ensures AfterScan(t, readings, now).prevPressed[row][col] != t.prevPressed[row][col]
            <==> CellAccepts(t, readings, now, row, col)
    ensures AfterScan(t, readings, now).lastChangeMs[row][col] != t.lastChangeMs[row][col]
            <==> CellAccepts(t, readings, now, row, col)
  {
    if CellAccepts(t, readings, now, row, col) {
      assert WrapSub(now, t.lastChangeMs[row][col]) != 0;
    }
  }

  /**
   * Bounce suppression: once a key's change is accepted at `now`, no reading
   * of that key is accepted less than KEY_DEBOUNCE_MS later, and a differing
   * one is accepted from then on (clock wrap-around included).
   */
  lemma BounceSuppressed(t: Table, readings: seq<seq<bool>>, now: u32, row: nat, col: nat,
                         later: seq<seq<bool>>, elapsed: u32)
    requires WellFormed(t) && IsGrid(readings) && IsGrid(later) && row < ROWS && col < COLS
    requires CellAccepts(t, readings, now, row, col)
    ensures CellAccepts(AfterScan(t, readings, now), later, WrapAdd(now, elapsed), row, col)
            <==> later[row][col] != readings[row][col] && elapsed >= KEY_DEBOUNCE_MS
  {
    SinceAfterWrap(now, elapsed);
  }

  /** When no key accepts its reading, a scan emits nothing. */
  lemma {:induction false} QuietScan(t: Table, readings: seq<seq<bool>>, now: u32, registered: bool,
                                     col: nat, row: nat)
    requires WellFormed(t) && IsGrid(readings)
    requires col <= COLS && row <= ROWS && (col == COLS ==> row == 0)
    requires forall r, c :: 0 <= r < ROWS && 0 <= c < COLS ==> !CellAccepts(t, readings, now, r, c)
    ensures EventsBefore(t, readings, now, registered, col, row) == []
    decreases col, row
  {
    if row == 0 {
      if col != 0 {
        QuietScan(t, readings, now, registered, col - 1, ROWS);
      }
    } else {
      QuietScan(t, readings, now, registered, col, row - 1);
    }
  }

  /**
   * Repeating a scan with the same readings at the same instant emits nothing
   * and leaves the table as the first scan left it.
   */
  lemma RescanIsQuiet(t: Table, readings: seq<seq<bool>>, now: u32, registered: bool)
    requires WellFormed(t) && IsGrid(readings)
    ensures ScanEvents(AfterScan(t, readings, now), readings, now, registered) == []
    ensures AfterScan(AfterScan(t, readings, now), readings, now) == AfterScan(t, readings, now)
  {
    var t' := AfterScan(t, readings, now);
    forall r, c | 0 <= r < ROWS && 0 <= c < COLS
      ensures !CellAccepts(t', readings, now, r, c)
    {
    }
    QuietScan(t', readings, now, registered, COLS, 0);
    TableExt(AfterScan(t', readings, now), t');
  }

  /** Every emitted event is the mapping of a key whose change was accepted. */
  lemma {:induction false} EventsComeFromAcceptedKeys(t: Table, readings: seq<seq<bool>>, now: u32,
                                                      registered: bool, col: nat, row: nat)
    requires WellFormed(t) && IsGrid(readings)
    requires col <= COLS && row <= ROWS && (col == COLS ==> row == 0)
    ensures forall e :: e in EventsBefore(t, readings, now, registered, col, row) ==>
              exists r, c :: 0 <= r < ROWS && 0 <= c < COLS && CellAccepts(t, readings, now, r, c)
                             && e == MapEvent(r, c, readings[r][c])
    decreases col, row
  {
    if row == 0 {
      if col != 0 {
        EventsComeFromAcceptedKeys(t, readings, now, registered, col - 1, ROWS);
      }
    } else {
      EventsComeFromAcceptedKeys(t, readings, now, registered, col, row - 1);
      var r, c := row - 1, col;
      assert forall e :: e in CellEvents(t, readings, now, registered, r, c) ==>
               CellAccepts(t, readings, now, r, c) && e == MapEvent(r, c, readings[r][c]);
    }
  }

  /**
   * Conversely, every key with a stepper event whose change is accepted is
   * reported once the scan has passed it, provided a callback is registered.
   */
  lemma {:induction false} AcceptedKeyEmits(t: Table, readings: seq<seq<bool>>, now: u32,
                                            col: nat, row: nat, r: nat, c: nat)
    requires WellFormed(t) && IsGrid(readings)
    requires col <= COLS && row <= ROWS && (col == COLS ==> row == 0)
    requires r < ROWS && c < COLS && (c < col || (c == col && r < row))
    requires CellAccepts(t, readings, now, r, c) && MapEvent(r, c, readings[r][c]) != NoEvent
    ensures MapEvent(r, c, readings[r][c]) in EventsBefore(t, readings, now, true, col, row)
    decreases col, row
  {
    if row == 0 {
      AcceptedKeyEmits(t, readings, now, col - 1, ROWS, r, c);
    } else if c == col && r == row - 1 {
      assert CellEvents(t, readings, now, true, r, c) == [MapEvent(r, c, readings[r][c])];
    } else {
      AcceptedKeyEmits(t, readings, now, col, row - 1, r, c);
    }
  }

  /**
   * Column-major order: with stepper 2's CW key (row 0, column 1) and
   * stepper 1's CCW key (row 1, column 0) pressed together on a fresh table,
   * column 0 is reported first although its key is on the later row.
   */
  lemma ColumnMajorOrder()
    ensures ScanEvents(InitialTable,
                       [[false, true, false, false],
                        [true, false, false, false],
                        [false, false, false, false],
                        [false, false, false, false]], 100, true) == [M1Ccw, M2Cw]
  {
    var readings := [[false, true, false, false],
                     [true, false, false, false],
                     [false, false, false, false],
                     [false, false, false, false]];
    var t := InitialTable;
    assert EventsBefore(t, readings, 100, true, 0, 4) == [M1Ccw];
    assert EventsBefore(t, readings, 100, true, 1, 4) == [M1Ccw, M2Cw];
    assert EventsBefore(t, readings, 100, true, 2, 4) == [M1Ccw, M2Cw];
  }

  lemma TableExt(a: Table, b: Table)
    requires WellFormed(a) && WellFormed(b)
    requires forall r, c :: 0 <= r < ROWS && 0 <= c < COLS ==>
               a.prevPressed[r][c] == b.prevPressed[r][c] && a.lastChangeMs[r][c] == b.lastChangeMs[r][c]
    ensures a == b
  {
    assert forall r :: 0 <= r < ROWS ==> a.prevPressed[r] == b.prevPressed[r];
    assert forall r :: 0 <= r < ROWS ==> a.lastChangeMs[r] == b.lastChangeMs[r];
  }

  /** The keypad's module state: the two 4x4 arrays, the activity flag and the callback. */
  class Keypad {
    const prevPressed: array2<bool>
    const lastChangeMs: array2<u32>
    /** Set by the row-line interrupt, consumed by the scan task. */
    var keyActivityFlag: bool
    /** `g_callback != nullptr` */
    var callbackRegistered: bool
    /** The two arrays as a `Table`. */
    ghost var table: Table

    ghost predicate Valid()
      reads this, prevPressed, lastChangeMs
    {
      && prevPressed.Length0 == ROWS && prevPressed.Length1 == COLS
      && lastChangeMs.Length0 == ROWS && lastChangeMs.Length1 == COLS
      && WellFormed(table)
      && forall r, c :: 0 <= r < ROWS && 0 <= c < COLS ==>
           prevPressed[r, c] == table.prevPressed[r][c] && lastChangeMs[r, c] == table.lastChangeMs[r][c]
    }

    /**
     * The arrays hold `t1` at the keys a scan has visited before key (`row`,
     * `col`) and `t0` at the others.
     */
    ghost predicate ScannedUpTo(t0: Table, t1: Table, col: nat, row: nat)
      reads prevPressed, lastChangeMs
      requires prevPressed.Length0 == ROWS && prevPressed.Length1 == COLS
      requires lastChangeMs.Length0 == ROWS && lastChangeMs.Length1 == COLS
      requires WellFormed(t0) && WellFormed(t1)
    {
      forall r, c :: 0 <= r < ROWS && 0 <= c < COLS ==>
        if c < col || (c == col && r < row)
        then prevPressed[r, c] == t1.prevPressed[r][c] && lastChangeMs[r, c] == t1.lastChangeMs[r][c]
        else prevPressed[r, c] == t0.prevPressed[r][c] && lastChangeMs[r, c] == t0.lastChangeMs[r][c]
    }

    /** `button_matrix_init`'s state: zeroed tables, no pending activity, the callback. */
    constructor (callbackRegistered: bool)
      ensures Valid() && fresh(prevPressed) && fresh(lastChangeMs)
      ensures table == InitialTable
      ensures !keyActivityFlag && this.callbackRegistered == callbackRegistered
    {
      prevPressed := new bool[ROWS, COLS]((r, c) => false);
      lastChangeMs := new u32[ROWS, COLS]((r, c) => 0);
      keyActivityFlag := false;
      this.callbackRegistered := callbackRegistered;
      table := InitialTable;
    }

    /**
     * The visit of key (`row`, `col`) inside `scan_matrix_and_dispatch`: the
     * key takes its reading and `now` when the change is accepted, and the
     * mapped event, if any, goes to the callback.
     */
    method ScanKey(readings: seq<seq<bool>>, now: u32, row: nat, col: nat, ghost t0: Table, ghost t1: Table)
      returns (event: seq<MatrixEvent>)
      requires prevPressed.Length0 == ROWS && prevPressed.Length1 == COLS
      requires lastChangeMs.Length0 == ROWS && lastChangeMs.Length1 == COLS
      requires WellFormed(t0) && IsGrid(readings) && row < ROWS && col < COLS
      requires t1 == AfterScan(t0, readings, now)
      requires ScannedUpTo(t0, t1, col, row)
      modifies prevPressed, lastChangeMs
      ensures ScannedUpTo(t0, t1, col, row + 1)
      ensures event == CellEvents(t0, readings, now, callbackRegistered, row, col)
    {
      var pressed := readings[row][col];
      var changed := pressed != prevPressed[row, col];
      event := [];
      if changed && WrapSub(now, lastChangeMs[row, col]) >= KEY_DEBOUNCE_MS {
        prevPressed[row, col] := pressed;
        lastChangeMs[row, col] := now;
        if callbackRegistered {
          var mapped := MapEvent(row, col, pressed);
          if mapped != NoEvent {
            event := [mapped];
          }
        }
      }
    }

    /**
     * `scan_matrix_and_dispatch` at clock value `now`; `readings[row][col]`
     * is true when the key reads as pressed. Returns the events handed to the
     * callback, in order.
     */
    method ScanMatrixAndDispatch(readings: seq<seq<bool>>, now: u32) returns (events: seq<MatrixEvent>)
      requires Valid() && IsGrid(readings)
      modifies this`table, prevPressed, lastChangeMs
      ensures Valid()
      ensures table == AfterScan(old(table), readings, now)
      ensures events == ScanEvents(old(table), readings, now, callbackRegistered)
    {
      ghost var t0 := table;
      ghost var t1 := AfterScan(t0, readings, now);
      events := [];
      var col := 0;
      while col < COLS
        invariant 0 <= col <= COLS
        invariant events == EventsBefore(t0, readings, now, callbackRegistered, col, 0)
        invariant ScannedUpTo(t0, t1, col, 0)
      {
        var row := 0;
        while row < ROWS
          invariant 0 <= row <= ROWS
          invariant events == EventsBefore(t0, readings, now, callbackRegistered, col, row)
          invariant ScannedUpTo(t0, t1, col, row)
        {
          var event := ScanKey(readings, now, row, col, t0, t1);
          events := events + event;
          row := row + 1;
        }
        col := col + 1;
      }
      table := t1;
    }

    /** The test-and-clear of `keyActivityFlag` at the top of the scan task's loop. */
    method TakeActivityFlag() returns (shouldScan: bool)
      modifies this`keyActivityFlag
      ensures shouldScan == old(keyActivityFlag) && !keyActivityFlag
    {
      shouldScan := false;
      if keyActivityFlag {
        shouldScan := true;
        keyActivityFlag := false;
      }
    }

    /**
     * One iteration of `button_scan_task`: a scan when activity was flagged,
     * then the periodic fallback scan. Each scan sees its own readings and
     * clock value.
     */
    method ScanTaskIteration(first: seq<seq<bool>>, firstNow: u32, second: seq<seq<bool>>, secondNow: u32)
      returns (events: seq<MatrixEvent>)
      requires Valid() && IsGrid(first) && IsGrid(second)
      modifies this`keyActivityFlag, this`table, prevPressed, lastChangeMs
      ensures Valid() && !keyActivityFlag
      ensures var t0 := old(table);
              var t1 := if old(keyActivityFlag) then AfterScan(t0, first, firstNow) else t0;
              && table == AfterScan(t1, second, secondNow)
              && events == (if old(keyActivityFlag) then ScanEvents(t0, first, firstNow, callbackRegistered) else [])
                           + ScanEvents(t1, second, secondNow, callbackRegistered)
    {
      var shouldScan := TakeActivityFlag();
      events := [];
      if shouldScan {
        events := ScanMatrixAndDispatch(first, firstNow);
      }
      var periodic := ScanMatrixAndDispatch(second, secondNow);
      events := events + periodic;
    }
  }
}
