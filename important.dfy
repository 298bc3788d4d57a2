/**
 * `addImportantMemory`: a bounded FIFO of important notes. The loop drops the
 * oldest note while the list holds `importantMemoryLimit` or more, then the
 * new note is appended.
 *
 * As written the loop never ends when the limit is 0 or negative: shifting an
 * empty list leaves it empty and `0 >= limit` stays true. The corrected loop
 * also stops on an empty list, which gives the evident intent (room for the
 * new note, at least the newest note kept) and is what the rest of the model uses.
 */
module Important {
  import opened Wrappers
  import opened Memory

  /** The loop as written, run for at most `fuel` iterations; None while it is
    * still running when the fuel is spent. */
  function ShiftAsWritten(imp: seq<ImportantEntry>, limit: int, fuel: nat): Option<seq<ImportantEntry>>
    decreases fuel
  {
    if |imp| >= limit then
      if fuel == 0 then None
      else ShiftAsWritten(if imp == [] then [] else imp[1..], limit, fuel - 1)
    else Some(imp)
  }

  /** With a limit of 0 or less the loop as written runs forever: no amount of
    * fuel makes it stop, from any list. */
  lemma {:induction false} AsWrittenNeverStops(imp: seq<ImportantEntry>, limit: int, fuel: nat)
    requires limit <= 0
    ensures ShiftAsWritten(imp, limit, fuel).None?
    decreases fuel
  {
    if fuel > 0 {
      AsWrittenNeverStops(if imp == [] then [] else imp[1..], limit, fuel - 1);
    }
  }

  /** The corrected loop: drop the oldest note while the list is non-empty and
    * holds `limit` or more. */
  function DropOldest(imp: seq<ImportantEntry>, limit: int): seq<ImportantEntry>
    decreases |imp|
  {
    if |imp| > 0 && |imp| >= limit then DropOldest(imp[1..], limit) else imp
  }

  /** How many notes the corrected loop keeps: all of them below the limit,
    * otherwise `limit - 1` (none when the limit is 0 or less). */
  function Kept(n: nat, limit: int): (k: nat)
    ensures k <= n
  {
    if n < limit then n else if limit >= 1 then limit - 1 else 0
  }

  /** The corrected loop keeps exactly the newest `Kept` notes. */
  lemma {:induction false} DropOldestKeepsNewest(imp: seq<ImportantEntry>, limit: int)
    ensures DropOldest(imp, limit) == imp[|imp| - Kept(|imp|, limit)..]
    decreases |imp|
  {
    if |imp| > 0 && |imp| >= limit {
      DropOldestKeepsNewest(imp[1..], limit);
      assert imp[1..][|imp| - 1 - Kept(|imp| - 1, limit)..] == imp[|imp| - Kept(|imp| - 1, limit)..];
    }
  }

  /** For every limit of 1 or more the loop as written stops within `|imp|`
    * iterations with the corrected loop's result: the two differ only where
    * the original never ends. */
  lemma {:induction false} AsWrittenAgrees(imp: seq<ImportantEntry>, limit: int, fuel: nat)
    requires limit >= 1 && fuel >= |imp|
    ensures ShiftAsWritten(imp, limit, fuel) == Some(DropOldest(imp, limit))
    decreases |imp|
  {
    if |imp| >= limit {
      AsWrittenAgrees(imp[1..], limit, fuel - 1);
    }
  }

  /** `addImportantMemory` with the corrected loop. */
  function AddImportant(imp: seq<ImportantEntry>, enabled: bool, limit: int, content: string, now: int)
    : seq<ImportantEntry>
  {
    if !enabled then imp else DropOldest(imp, limit) + [ImportantEntry(content, now)]
  }

  /** Disabled, nothing changes. Enabled, the list ends with the new note,
    * holds at most `max(limit, 1)` notes, and before the new note keeps the
    * newest of the old ones in order (all of them while below the limit). */
  lemma AddImportantBounded(imp: seq<ImportantEntry>, enabled: bool, limit: int, content: string, now: int)
    ensures var r := AddImportant(imp, enabled, limit, content, now);
            (!enabled ==> r == imp)
            && (enabled ==>
                  |r| >= 1 && r[|r| - 1] == ImportantEntry(content, now)
                  && |r| <= (if limit >= 1 then limit else 1)
                  && r[..|r| - 1] == imp[|imp| - (|r| - 1)..]
                  && (|imp| < limit ==> r == imp + [ImportantEntry(content, now)]))
  {
    if enabled {
      DropOldestKeepsNewest(imp, limit);
      var r := AddImportant(imp, enabled, limit, content, now);
      assert r[..|r| - 1] == DropOldest(imp, limit);
    }
  }
}
