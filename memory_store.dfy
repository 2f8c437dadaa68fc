/**
 * The in-memory SMS store: an append-only sequence of (modem name, number, time stamp, text)
 * entries, and a cleanup that keeps the entries no older than the retention period.
 * Time stamps are whole seconds; the caller passes the clock reading.
 */
module MemoryStore {
  import opened Messages

  const SecondsPerDay := 86400

  datatype Entry = Entry(modemName: string, number: string, timestamp: int, text: string)

  /** The cleanup's filter condition: `current_time - msg[2] <= retention_seconds`. */
  predicate Retained(e: Entry, now: int, retentionSeconds: int) {
    now - e.timestamp <= retentionSeconds
  }

  /** The entries the cleanup keeps, in their original order. */
  function KeepRecent(s: seq<Entry>, now: int, retentionSeconds: int): (r: seq<Entry>)
    ensures |r| <= |s|
  {
    if s == [] then []
    else (if Retained(s[0], now, retentionSeconds) then [s[0]] else []) + KeepRecent(s[1..], now, retentionSeconds)
  }

  /** An entry survives the cleanup exactly when it was stored and is recent enough. */
  lemma {:induction false} KeepRecentMembers(s: seq<Entry>, now: int, retentionSeconds: int)
    ensures forall e :: e in KeepRecent(s, now, retentionSeconds) <==> e in s && Retained(e, now, retentionSeconds)
  {
    if s != [] {
      KeepRecentMembers(s[1..], now, retentionSeconds);
      assert s == [s[0]] + s[1..];
    }
  }

  /** The cleanup works entry by entry, so it keeps the relative order of what it keeps. */
  lemma {:induction false} KeepRecentAppend(a: seq<Entry>, b: seq<Entry>, now: int, retentionSeconds: int)
    ensures KeepRecent(a + b, now, retentionSeconds) == KeepRecent(a, now, retentionSeconds) + KeepRecent(b, now, retentionSeconds)
  {
    if a == [] {
      assert a + b == b;
    } else {
      var x, rest := a[0], a[1..];
      assert a == [x] + rest;
      assert a + b == [x] + (rest + b);
      KeepRecentCons(x, rest + b, now, retentionSeconds);
      KeepRecentCons(x, rest, now, retentionSeconds);
      KeepRecentAppend(rest, b, now, retentionSeconds);
    }
  }

  lemma KeepRecentCons(x: Entry, s: seq<Entry>, now: int, retentionSeconds: int)
    ensures KeepRecent([x] + s, now, retentionSeconds)
         == (if Retained(x, now, retentionSeconds) then [x] else []) + KeepRecent(s, now, retentionSeconds)
  {
    assert ([x] + s)[0] == x && ([x] + s)[1..] == s;
  }

  /** The store is unchanged by the cleanup exactly when every entry is recent enough. */
  lemma {:induction false} KeepRecentUnchanged(s: seq<Entry>, now: int, retentionSeconds: int)
    ensures KeepRecent(s, now, retentionSeconds) == s
        <==> forall i :: 0 <= i < |s| ==> Retained(s[i], now, retentionSeconds)
  {
    if s != [] {
      var x, rest := s[0], s[1..];
      assert s == [x] + rest;
      KeepRecentCons(x, rest, now, retentionSeconds);
      KeepRecentUnchanged(rest, now, retentionSeconds);
      var tail := KeepRecent(rest, now, retentionSeconds);
      if !Retained(x, now, retentionSeconds) {
        assert |KeepRecent(s, now, retentionSeconds)| < |s|;
      } else {
        assert ([x] + tail)[1..] == tail;
        assert (forall i :: 0 <= i < |s| ==> Retained(s[i], now, retentionSeconds))
           <==> (forall i :: 0 <= i < |rest| ==> Retained(rest[i], now, retentionSeconds)) by {
          forall i | 0 < i < |s| ensures s[i] == rest[i - 1] { }
        }
      }
    }
  }

  /** Cleaning up twice at the same time is the same as cleaning up once. */
  lemma {:induction false} KeepRecentIdempotent(s: seq<Entry>, now: int, retentionSeconds: int)
    ensures KeepRecent(KeepRecent(s, now, retentionSeconds), now, retentionSeconds) == KeepRecent(s, now, retentionSeconds)
  {
    if s != [] {
      KeepRecentIdempotent(s[1..], now, retentionSeconds);
      var head := if Retained(s[0], now, retentionSeconds) then [s[0]] else [];
      KeepRecentAppend(head, KeepRecent(s[1..], now, retentionSeconds), now, retentionSeconds);
    }
  }

  /** An entry saved within the retention window is still there after a cleanup, as the last entry. */
  lemma SavedEntrySurvivesCleanup(s: seq<Entry>, e: Entry, now: int, retentionSeconds: int)
    requires Retained(e, now, retentionSeconds)
    ensures KeepRecent(s + [e], now, retentionSeconds) == KeepRecent(s, now, retentionSeconds) + [e]
  {
    KeepRecentAppend(s, [e], now, retentionSeconds);
  }

  class MemoryStore {
    var entries: seq<Entry>
    const retentionSeconds: int

    constructor (retentionDays: int)
      ensures retentionSeconds == retentionDays * SecondsPerDay
      ensures entries == []
    {
      retentionSeconds := retentionDays * SecondsPerDay;
      entries := [];
    }

    /** Appends one entry at the tail, stamped with the current time. */
    method SaveSms(modemName: string, sms: Sms, now: int)
      modifies this
      ensures entries == old(entries) + [Entry(modemName, sms.number, now, sms.text)]
    {
      entries := entries + [Entry(modemName, sms.number, now, sms.text)];
    }

    /** Replaces the store by its recent entries and reports how many were removed. */
    method CleanupOldMessages(now: int) returns (removed: int)
      modifies this
      ensures entries == KeepRecent(old(entries), now, retentionSeconds)
      ensures removed == |old(entries)| - |entries| && removed >= 0
    {
      var initialCount := |entries|;
      entries := KeepRecent(entries, now, retentionSeconds);
      removed := initialCount - |entries|;
    }

    /** A copy of the store, in insertion order; the store is not changed. */
    method GetAllSms() returns (r: seq<Entry>)
      ensures r == entries
    {
      r := entries;
    }
  }
}
