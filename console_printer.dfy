/**
 * The telegram table and print state of src/Utils/ConsolePrinter.cs. Every
 * telegram handed to `PrintTelegram` is counted under the key of its source
 * and destination; the screen, redrawn by `PrintScreen`, is modelled by the
 * table it last showed.
 */
module Printer {
  import opened Bytes
  import Telegrams

  /** A `UInt16` dictionary key. */
  type Key = n: nat | n < 0x1_0000

  /** `uint` arithmetic wraps modulo 2^32. */
  const UIntModulus: nat := 0x1_0000_0000

  /** `(UInt16)((Source << 8) + Destination)`: the sum never exceeds 0xFFFF, so nothing is cut off. */
  function KeyOf(t: Telegrams.Telegram): Key {
    U16(t.source, t.destination)
  }

  /** Two telegrams share a table entry exactly when they have the same source and destination. */
  lemma KeyInjective(t1: Telegrams.Telegram, t2: Telegrams.Telegram)
    ensures KeyOf(t1) == KeyOf(t2) <==> t1.source == t2.source && t1.destination == t2.destination
  {
    if KeyOf(t1) == KeyOf(t2) {
      U16Injective(t1.source, t1.destination, t2.source, t2.destination);
    }
  }

  /** A `uint` value. */
  type UInt = n: nat | n < UIntModulus

  /** `uint` increment `++`: wraps from 2^32 - 1 to 0. */
  function Inc(c: UInt): (d: UInt)
    ensures d == (c + 1) % UIntModulus
  {
    if c == UIntModulus - 1 then 0 else c + 1
  }

  /** `TelegramInfo`: a `uint` update counter and the latest telegram. */
  datatype TelegramInfo = TelegramInfo(count: UInt, telegram: Telegrams.Telegram)

  type Table = map<Key, TelegramInfo>

  /**
   * The entry `PrintTelegram` leaves under the key of `tg`: a new entry with
   * count 1, or the old entry with its telegram replaced (BaseTelegram has
   * no `Equals` of its own, so an equal telegram is the same object) and its
   * count incremented.
   */
  function Updated(table: Table, tg: Telegrams.Telegram): (info: TelegramInfo)
    ensures info.telegram == tg
    ensures KeyOf(tg) !in table ==> info.count == 1
    ensures KeyOf(tg) in table ==> info.count == Inc(table[KeyOf(tg)].count)
  {
    var key := KeyOf(tg);
    if key !in table then TelegramInfo(1, tg)
    else
      var info := table[key];
      var info' := if info.telegram != tg then info.(telegram := tg) else info;
      info'.(count := Inc(info'.count))
  }

  /** The dictionary update of `PrintTelegram`: only the entry of `tg`'s key changes. */
  function Record(table: Table, tg: Telegrams.Telegram): (r: Table)
    ensures r.Keys == table.Keys + {KeyOf(tg)}
    ensures forall k :: k in table && k != KeyOf(tg) ==> r[k] == table[k]
  {
    table[KeyOf(tg) := Updated(table, tg)]
  }

  /** The table after `PrintTelegram` was called with every telegram of `log`, in order. */
  function Tally(log: seq<Telegrams.Telegram>): Table
    decreases |log|
  {
    if log == [] then map[] else Record(Tally(log[..|log| - 1]), log[|log| - 1])
  }

  /** How many telegrams of `log` have key `k`. */
  function Occurrences(log: seq<Telegrams.Telegram>, k: Key): nat
    decreases |log|
  {
    if log == [] then 0
    else Occurrences(log[..|log| - 1], k) + (if KeyOf(log[|log| - 1]) == k then 1 else 0)
  }

  /**
   * Each entry counts the telegrams with its key (modulo 2^32) and holds the
   * latest of them; there is an entry exactly for the keys that occurred.
   */
  lemma {:induction false} TallyCounts(log: seq<Telegrams.Telegram>, k: Key)
    ensures k in Tally(log) <==> Occurrences(log, k) > 0
    ensures k in Tally(log) ==> Tally(log)[k].count == Occurrences(log, k) % UIntModulus
    ensures k in Tally(log) ==> KeyOf(Tally(log)[k].telegram) == k
    decreases |log|
  {
    if log != [] {
      var prefix, last := log[..|log| - 1], log[|log| - 1];
      TallyCounts(prefix, k);
      var table := Tally(prefix);
      assert Tally(log) == Record(table, last);
      if KeyOf(last) == k {
        assert Tally(log)[k] == Updated(table, last);
        if k in table {
          IncMod(table[k].count, Occurrences(prefix, k));
        }
      } else {
        assert Occurrences(log, k) == Occurrences(prefix, k);
      }
    }
  }

  /** Incrementing a counter that holds `n` modulo 2^32 makes it hold `n + 1` modulo 2^32. */
  lemma IncMod(c: UInt, n: nat)
    requires c == n % UIntModulus
    ensures Inc(c) == (n + 1) % UIntModulus
  {
  }

  /** The entry under the key of the latest telegram holds that telegram. */
  lemma LatestWins(log: seq<Telegrams.Telegram>)
    requires log != []
    ensures Tally(log)[KeyOf(log[|log| - 1])].telegram == log[|log| - 1]
  {
  }

  /** The sum of the counts of the keys below `n`. */
  function SumCounts(table: Table, n: nat): nat
    requires n <= 0x1_0000
    decreases n
  {
    if n == 0 then 0
    else SumCounts(table, n - 1) + (if n - 1 in table then table[n - 1].count else 0)
  }

  function Total(table: Table): nat {
    SumCounts(table, 0x1_0000)
  }

  /** Replacing one entry changes the sum by the difference of the counts. */
  lemma {:induction false} SumCountsUpdate(table: Table, k: Key, info: TelegramInfo, n: nat)
    requires n <= 0x1_0000
    ensures SumCounts(table[k := info], n) ==
      SumCounts(table, n) + (if k < n then info.count - (if k in table then table[k].count else 0) else 0)
    decreases n
  {
    if n > 0 {
      SumCountsUpdate(table, k, info, n - 1);
    }
  }

  /** `Record` adds one to the total, less 2^32 when a counter wraps to 0. */
  lemma RecordTotal(table: Table, tg: Telegrams.Telegram)
    ensures Total(Record(table, tg)) % UIntModulus == (Total(table) + 1) % UIntModulus
  {
    var key, info := KeyOf(tg), Updated(table, tg);
    var r := Record(table, tg);
    SumCountsUpdate(table, key, info, 0x1_0000);
    if key !in table {
      assert Total(r) == Total(table) + 1;
    } else {
      var c := table[key].count;
      if c + 1 < UIntModulus {
        assert info.count == c + 1;
        assert Total(r) == Total(table) + 1;
      } else {
        assert info.count == 0;
        assert Total(r) == Total(table) + 1 - UIntModulus;
        ModShift(Total(table) + 1);
      }
    }
  }

  /** Arithmetic helpers for RecordTotal and TallyTotal. */
  lemma ModShift(x: int)
    ensures (x - UIntModulus) % UIntModulus == x % UIntModulus
  {
  }

  lemma ModSucc(a: int, b: int)
    requires a % UIntModulus == b % UIntModulus
    ensures (a + 1) % UIntModulus == (b + 1) % UIntModulus
  {
  }

  /** The counts add up to the number of `PrintTelegram` calls (modulo 2^32). */
  lemma {:induction false} TallyTotal(log: seq<Telegrams.Telegram>)
    ensures Total(Tally(log)) % UIntModulus == |log| % UIntModulus
    decreases |log|
  {
    if log == [] {
      EmptySum(0x1_0000);
    } else {
      var prefix := log[..|log| - 1];
      TallyTotal(prefix);
      RecordTotal(Tally(prefix), log[|log| - 1]);
      ModSucc(Total(Tally(prefix)), |prefix|);
    }
  }

  lemma {:induction false} EmptySum(n: nat)
    requires n <= 0x1_0000
    ensures SumCounts(map[], n) == 0
  {
    if n > 0 {
      EmptySum(n - 1);
    }
  }

  /** The `PrintState` enum. */
  datatype PrintState = Empty | PrintRequired

  /** A printer: its dictionary, its print state, its refresh timer and what the screen shows. */
  datatype PrinterState = PrinterState(
    table: Table,
    state: PrintState,
    timerEnabled: bool,
    screen: Table)

  /** The constructor: an empty table, EMPTY, the timer started, only the header on screen. */
  function Init(): (p: PrinterState)
    ensures p.table == map[] && p.state == Empty && p.timerEnabled
  {
    PrinterState(map[], Empty, true, map[])
  }

  /** `PrintScreen`: only with PRINT_REQUIRED, draws the table and returns to EMPTY. */
  function Redraw(p: PrinterState): (q: PrinterState)
    ensures q.state == Empty && q.table == p.table && q.timerEnabled == p.timerEnabled
    ensures p.state == PrintRequired ==> q.screen == p.table
    ensures p.state == Empty ==> q == p
  {
    match p.state
    case PrintRequired => p.(screen := p.table, state := Empty)
    case Empty => p
  }

  /**
   * `PrintTelegram`: record the telegram, require a print, and when the
   * refresh timer is not running print at once and start it.
   */
  function Accept(p: PrinterState, tg: Telegrams.Telegram): (q: PrinterState)
    ensures q.table == Record(p.table, tg) && q.timerEnabled
    ensures p.timerEnabled ==> q.state == PrintRequired && q.screen == p.screen
    ensures !p.timerEnabled ==> q.state == Empty && q.screen == q.table
  {
    var recorded := p.(table := Record(p.table, tg), state := PrintRequired);
    if !recorded.timerEnabled then Redraw(recorded).(timerEnabled := true) else recorded
  }

  /** The refresh timer's `Elapsed` handler: print if required, then restart. */
  function OnRefresh(p: PrinterState): (q: PrinterState)
    ensures q.timerEnabled && q.state == Empty && q.table == p.table
    ensures p.state == PrintRequired ==> q.screen == p.table
    ensures p.state == Empty ==> q.screen == p.screen
  {
    Redraw(p).(timerEnabled := true)
  }

  /** `FlushAndStopTimer`: print what is pending, then stop the timer. */
  function Flush(p: PrinterState): (q: PrinterState)
    ensures !q.timerEnabled && q.state == Empty && q.table == p.table
    ensures p.state == Empty ==> q == p.(timerEnabled := false)
  {
    match p.state
    case PrintRequired => Redraw(p).(timerEnabled := false)
    case Empty => p.(timerEnabled := false)
  }

  /** Nothing is pending exactly when the screen shows the whole table. */
  predicate Inv(p: PrinterState) {
    p.state == Empty ==> p.screen == p.table
  }

  lemma InvPreserved(p: PrinterState, tg: Telegrams.Telegram)
    requires Inv(p)
    ensures Inv(Init())
    ensures Inv(Accept(p, tg))
    ensures Inv(Redraw(p)) && Inv(OnRefresh(p)) && Inv(Flush(p))
  {
  }

  /** After `FlushAndStopTimer` the screen shows every telegram received. */
  lemma FlushShowsAll(p: PrinterState)
    requires Inv(p)
    ensures Flush(p).screen == p.table
  {
  }

  /** The printer after `PrintTelegram` was called with every telegram of `log`. */
  function Feed(p: PrinterState, log: seq<Telegrams.Telegram>): PrinterState
    decreases |log|
  {
    if log == [] then p else Accept(Feed(p, log[..|log| - 1]), log[|log| - 1])
  }

  /** The dictionary of a fresh printer is the tally of everything it was handed. */
  lemma {:induction false} FeedTallies(log: seq<Telegrams.Telegram>)
    ensures Feed(Init(), log).table == Tally(log)
    ensures Inv(Feed(Init(), log))
    ensures log != [] ==> Feed(Init(), log).state == PrintRequired
    decreases |log|
  {
    if log != [] {
      FeedTallies(log[..|log| - 1]);
      InvPreserved(Feed(Init(), log[..|log| - 1]), log[|log| - 1]);
      FeedKeepsTimer(log[..|log| - 1]);
    }
  }

  /** The timer of a fresh printer stays enabled while only telegrams arrive. */
  lemma {:induction false} FeedKeepsTimer(log: seq<Telegrams.Telegram>)
    ensures Feed(Init(), log).timerEnabled
    decreases |log|
  {
    if log != [] {
      FeedKeepsTimer(log[..|log| - 1]);
    }
  }

  /** The ConsolePrinter object, without its console drawing. */
  class ConsolePrinter {
    var telegrams: Table
    var state: PrintState
    var timerEnabled: bool
    var screen: Table

    function Abs(): PrinterState
      reads this
    {
      PrinterState(telegrams, state, timerEnabled, screen)
    }

    constructor()
      ensures Abs() == Init()
    {
      telegrams := map[];
      state := Empty;
      timerEnabled := true;
      screen := map[];
    }

    method PrintTelegram(tg: Telegrams.Telegram)
      modifies this
      ensures Abs() == Accept(old(Abs()), tg)
    {
      var key: Key := U16(tg.source, tg.destination);
      if key !in telegrams {
        telegrams := telegrams[key := TelegramInfo(1, tg)];
      } else {
        if telegrams[key].telegram != tg {
          telegrams := telegrams[key := telegrams[key].(telegram := tg)];
        }
        telegrams := telegrams[key := telegrams[key].(count := Inc(telegrams[key].count))];
      }
      if state == Empty {
        state := PrintRequired;
      }
      if !timerEnabled {
        PrintScreen();
        timerEnabled := true;
      }
    }

    method PrintScreen()
      modifies this
      ensures Abs() == Redraw(old(Abs()))
    {
      if state == PrintRequired {
        screen := telegrams;
        state := Empty;
      }
    }

    /** The refresh timer firing. */
    method Refresh()
      modifies this
      ensures Abs() == OnRefresh(old(Abs()))
    {
      if state == PrintRequired {
        PrintScreen();
      }
      timerEnabled := true;
    }

    method FlushAndStopTimer()
      modifies this
      ensures Abs() == Flush(old(Abs()))
    {
      if state == PrintRequired {
        PrintScreen();
      }
      timerEnabled := false;
    }
  }
}
