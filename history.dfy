/**
 * The classification history kept by the browser client
 * (frontend/js/script.js): a list of past results, newest first, that never
 * grows beyond ten entries. This module gives the list's meaning as values;
 * the client class in module Client updates its history field to match.
 */
module History {

  /** The fields of a `/predict` response that the history keeps. */
  datatype ClassificationResult = ClassificationResult(
    predictedClass: string,
    confidence: real,
    isUncertain: bool)

  /**
   * One history record: `id` is the creation time in milliseconds and
   * `timestamp` its display text; both come from the clock.
   */
  datatype HistoryEntry = HistoryEntry(
    id: int,
    timestamp: string,
    predictedClass: string,
    confidence: real,
    isUncertain: bool)

  /** The number of entries the history keeps. */
  const Capacity: nat := 10

  function MakeEntry(result: ClassificationResult, id: int, timestamp: string): HistoryEntry
  {
    HistoryEntry(id, timestamp, result.predictedClass, result.confidence, result.isUncertain)
  }

  /** The first `Capacity` entries of `s`, or all of them when there are fewer. */
  function Window(s: seq<HistoryEntry>): (w: seq<HistoryEntry>)
    ensures |w| <= Capacity
    ensures w <= s
    ensures |s| <= Capacity ==> w == s
  {
    if |s| > Capacity then s[..Capacity] else s
  }

  /**
   * The history after one entry is added: the entry goes to the front and,
   * when that makes eleven, the oldest entry is dropped.
   */
  function Added(h: seq<HistoryEntry>, e: HistoryEntry): (r: seq<HistoryEntry>)
    ensures |r| == if |h| < Capacity then |h| + 1 else Capacity
    ensures r[0] == e
    ensures forall i :: 0 <= i < |r| - 1 ==> r[i + 1] == h[i]
  {
    Window([e] + h)
  }

  /**
   * Below capacity nothing is lost; otherwise the first nine entries are
   * kept (for a full history: everything but the oldest).
   */
  lemma AddedDropsOnlyOldest(h: seq<HistoryEntry>, e: HistoryEntry)
    ensures |h| < Capacity ==> Added(h, e) == [e] + h
    ensures |h| >= Capacity ==> Added(h, e) == [e] + h[..Capacity - 1]
  {
    var r := Added(h, e);
    if |h| < Capacity {
      assert forall i :: 0 <= i < |r| ==> r[i] == ([e] + h)[i];
    } else {
      assert forall i :: 0 <= i < |r| ==> r[i] == ([e] + h[..Capacity - 1])[i];
    }
  }

  /** The history after `es` is added one entry at a time, first to last. */
  function AddAll(h: seq<HistoryEntry>, es: seq<HistoryEntry>): seq<HistoryEntry>
  {
    if es == [] then h else Added(AddAll(h, es[..|es| - 1]), es[|es| - 1])
  }

  /** `es` newest first: the last element of `es` comes first. */
  function NewestFirst(es: seq<HistoryEntry>): (r: seq<HistoryEntry>)
    ensures |r| == |es|
    ensures forall i :: 0 <= i < |es| ==> r[i] == es[|es| - 1 - i]
  {
    if es == [] then [] else [es[|es| - 1]] + NewestFirst(es[..|es| - 1])
  }

  lemma WindowOfCons(e: HistoryEntry, s: seq<HistoryEntry>)
    ensures Window([e] + Window(s)) == Window([e] + s)
  {
    if |s| > Capacity {
      assert ([e] + s[..Capacity])[..Capacity] == ([e] + s)[..Capacity];
    }
  }

  /**
   * After any run of additions the history is the ten most recent entries,
   * newest first, followed by what was there before, cut at ten. A loaded
   * history longer than ten is cut by the first addition.
   */
  lemma {:induction false} AddAllIsRecentWindow(h: seq<HistoryEntry>, es: seq<HistoryEntry>)
    requires es != [] || |h| <= Capacity
    ensures AddAll(h, es) == Window(NewestFirst(es) + h)
  {
    if es != [] {
      var init, last := es[..|es| - 1], es[|es| - 1];
      var older := NewestFirst(init) + h;
      assert NewestFirst(es) == [last] + NewestFirst(init);
      assert [last] + older == NewestFirst(es) + h;
      if init == [] {
        assert AddAll(h, init) == h == older;
        assert AddAll(h, es) == Window([last] + older);
      } else {
        calc {
          AddAll(h, es);
          Added(AddAll(h, init), last);
          Window([last] + AddAll(h, init));
          { AddAllIsRecentWindow(h, init); }
          Window([last] + Window(older));
          { WindowOfCons(last, older); }
          Window([last] + older);
        }
      }
    }
  }

  /** After at least one addition the history holds at most ten entries. */
  lemma {:induction false} AddAllBounded(h: seq<HistoryEntry>, es: seq<HistoryEntry>)
    requires es != []
    ensures |AddAll(h, es)| <= Capacity
    ensures AddAll(h, es)[0] == es[|es| - 1]
  {
  }

  /** Entries sorted by strictly decreasing id, as a clock that advances yields them. */
  ghost predicate IdsDescending(h: seq<HistoryEntry>)
  {
    forall i, j :: 0 <= i < j < |h| ==> h[i].id > h[j].id
  }

  /**
   * When every new id is later than every id already kept, the history stays
   * ordered newest first by id.
   */
  lemma AddedKeepsIdsDescending(h: seq<HistoryEntry>, e: HistoryEntry)
    requires IdsDescending(h)
    requires h != [] ==> h[0].id < e.id
    ensures IdsDescending(Added(h, e))
  {
    var r := Added(h, e);
    forall i, j | 0 <= i < j < |r| ensures r[i].id > r[j].id {
      if i == 0 && j > 1 {
        assert r[j] == h[j - 1] && h[0].id > h[j - 1].id;
      }
    }
  }
}
