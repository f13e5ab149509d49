/** The calendar's per-site lookup from a day to the merged history entry
    of that day (components/calendar/historyMapBuilder.ts). Days are day
    numbers; `dayOf` stands for `dayjs(date).format("YYYY-MM-DD")` read as
    a day number. */
module HistoryMapBuilder {
  import opened Seqs
  import opened HistoryMergeService

  /** Each entry paired with its day, in input order. */
  function Dated(history: seq<MergedEntry>, dayOf: string -> int): (pairs: seq<(int, MergedEntry)>)
    ensures |pairs| == |history|
    ensures forall i :: 0 <= i < |history| ==> pairs[i] == (dayOf(history[i].date), history[i])
  {
    seq(|history|, i requires 0 <= i < |history| => (dayOf(history[i].date), history[i]))
  }

  /** The map `buildHistoryMap` returns: one key per day that occurs. */
  function HistoryMap(history: seq<MergedEntry>, dayOf: string -> int): (m: map<int, MergedEntry>)
    ensures m.Keys == set i | 0 <= i < |history| :: dayOf(history[i].date)
  {
    var pairs := Dated(history, dayOf);
    assert Keys(pairs) == set i | 0 <= i < |history| :: dayOf(history[i].date) by {
      forall i | 0 <= i < |history| ensures pairs[i].0 == dayOf(history[i].date) { }
    }
    LastWins(pairs)
  }

  /** `buildHistoryMap`: `map.set(day, entry)` for every entry in turn. */
  method BuildHistoryMap(history: seq<MergedEntry>, dayOf: string -> int) returns (m: map<int, MergedEntry>)
    ensures m == HistoryMap(history, dayOf)
  {
    ghost var pairs := Dated(history, dayOf);
    m := map[];
    var i := 0;
    while i < |history|
      invariant 0 <= i <= |history|
      invariant m == LastWins(pairs[..i])
    {
      var entry := history[i];
      assert pairs[..i + 1][..i] == pairs[..i];
      m := m[dayOf(entry.date) := entry];
      i := i + 1;
    }
    assert pairs[..|history|] == pairs;
  }

  /** An entry that no later entry of the same day follows is the one
      stored for its day: for a repeated day the last entry wins. */
  lemma HistoryMapLastWins(history: seq<MergedEntry>, dayOf: string -> int, i: nat)
    requires i < |history|
    requires forall j :: i < j < |history| ==> dayOf(history[j].date) != dayOf(history[i].date)
    ensures HistoryMap(history, dayOf)[dayOf(history[i].date)] == history[i]
  {
    LastWinsValue(Dated(history, dayOf), i);
  }

  /** Every stored entry is an input entry filed under its own day. */
  lemma HistoryMapValues(history: seq<MergedEntry>, dayOf: string -> int, day: int)
    requires day in HistoryMap(history, dayOf)
    ensures HistoryMap(history, dayOf)[day] in history
    ensures dayOf(HistoryMap(history, dayOf)[day].date) == day
  {
    var i := LastWinsSource(Dated(history, dayOf), day);
  }

  /** The map has no more entries than the history, and is empty exactly
      when the history is. */
  lemma HistoryMapSize(history: seq<MergedEntry>, dayOf: string -> int)
    ensures |HistoryMap(history, dayOf)| <= |history|
    ensures |HistoryMap(history, dayOf)| == 0 <==> |history| == 0
  {
    KeysSize(Dated(history, dayOf));
    if |history| > 0 {
      assert dayOf(history[0].date) in HistoryMap(history, dayOf);
    }
  }
}
