/**
 * The multipart table of the SMS processor. Each stored row is one fragment of a concatenated
 * message; a row's key is (sender, reference, modem, part number) and the table refuses a second
 * row with the same key. Rows are grouped here by (sender, reference, modem): a group maps part
 * numbers to fragments. Time stamps are whole seconds.
 */
module Multipart {
  import opened Wrappers
  import opened Messages

  /** A row is stale when it is older than 30 minutes. */
  const StaleSeconds := 30 * 60

  datatype GroupKey = GroupKey(sender: string, reference: int, modem: string)
  datatype Fragment = Fragment(totalParts: int, text: string, timestamp: int)
  type Parts = map<int, Fragment>
  type Table = map<GroupKey, Parts>

  /** A group is present only while it holds at least one row. */
  ghost predicate TableValid(t: Table) {
    forall g :: g in t ==> t[g] != map[]
  }

  /** The first Concatenation element of a header, if there is one. */
  function FirstConcatenation(udh: seq<UdhElement>): (r: Option<UdhElement>)
    ensures r.Some? ==> r.value.Concatenation? && r.value in udh
    ensures r.None? <==> forall i :: 0 <= i < |udh| ==> !udh[i].Concatenation?
  {
    if udh == [] then None
    else if udh[0].Concatenation? then Some(udh[0])
    else FirstConcatenation(udh[1..])
  }

  /** The element a scan of the header stops at is the first Concatenation element. */
  lemma {:induction false} FirstConcatenationAt(udh: seq<UdhElement>, i: nat)
    requires i < |udh| && udh[i].Concatenation?
    requires forall k :: 0 <= k < i ==> !udh[k].Concatenation?
    ensures FirstConcatenation(udh) == Some(udh[i])
  {
    if i > 0 {
      assert !udh[0].Concatenation?;
      FirstConcatenationAt(udh[1..], i - 1);
    }
  }

  // ---------------------------------------------------------------------------------------
  // Joining a group's texts in ascending part-number order

  lemma HasElement(s: set<int>)
    ensures s == {} || exists x :: x in s
  {
    if forall x :: x !in s {
      assert s == {};
    }
  }

  ghost function MinPart(ps: set<int>): (m: int)
    requires ps != {}
    ensures m in ps && forall p :: p in ps ==> m <= p
    decreases |ps|
  {
    HasElement(ps);
    var x :| x in ps;
    var rest := ps - {x};
    HasElement(rest);
    if rest == {} then
      assert ps == {x};
      x
    else
      var r := MinPart(rest);
      assert forall p :: p in ps ==> p == x || p in rest;
      if x <= r then x else r
  }

  /** The texts of a group's rows, ordered by part number (`ORDER BY part_number`). */
  ghost function Assemble(parts: Parts): string
    decreases |parts|
  {
    if parts == map[] then ""
    else
      var m := MinPart(parts.Keys);
      assert |parts - {m}| < |parts| by { assert (parts - {m}).Keys == parts.Keys - {m}; }
      parts[m].text + Assemble(parts - {m})
  }

  predicate StrictlyIncreasing(ks: seq<int>) {
    forall i, j :: 0 <= i < j < |ks| ==> ks[i] < ks[j]
  }

  /** The texts for a list of part numbers, in the list's order. */
  function JoinInOrder(ks: seq<int>, parts: Parts): string
    requires forall i :: 0 <= i < |ks| ==> ks[i] in parts
  {
    if ks == [] then "" else parts[ks[0]].text + JoinInOrder(ks[1..], parts)
  }

  /** Assembling a group gives its texts in the order of its part numbers listed ascending. */
  lemma {:induction false} AssembleIsAscending(ks: seq<int>, parts: Parts)
    requires StrictlyIncreasing(ks)
    requires parts.Keys == set k | k in ks
    ensures Assemble(parts) == JoinInOrder(ks, parts)
    decreases |ks|
  {
    if ks == [] {
      assert parts == map[];
    } else {
      var rest := parts - {ks[0]};
      SmallestListedFirst(ks, parts);
      AssembleStep(parts);
      assert StrictlyIncreasing(ks[1..]);
      AssembleIsAscending(ks[1..], rest);
      JoinInOrderAgrees(ks[1..], rest, parts);
    }
  }

  /** One step of the assembly: the smallest part's text, then the rest. */
  lemma AssembleStep(parts: Parts)
    requires parts != map[]
    ensures Assemble(parts) == parts[MinPart(parts.Keys)].text + Assemble(parts - {MinPart(parts.Keys)})
  {
  }

  /** The head of an ascending list of the part numbers is the smallest one, and the tail lists the rest. */
  lemma SmallestListedFirst(ks: seq<int>, parts: Parts)
    requires StrictlyIncreasing(ks) && ks != []
    requires parts.Keys == set k | k in ks
    ensures ks[0] in parts && MinPart(parts.Keys) == ks[0]
    ensures (parts - {ks[0]}).Keys == set k | k in ks[1..]
  {
    assert ks[0] in ks;
    assert ks[0] in parts.Keys;
    var m := MinPart(parts.Keys);
    var i :| 0 <= i < |ks| && ks[i] == m;
    assert ks[0] <= m;
    var rest := parts - {ks[0]};
    forall k | k in rest.Keys ensures k in ks[1..] {
      var j :| 0 <= j < |ks| && ks[j] == k;
      assert j != 0;
    }
    forall k | k in ks[1..] ensures k in rest.Keys {
      var j :| 1 <= j < |ks| && ks[j] == k;
    }
  }

  lemma {:induction false} JoinInOrderAgrees(ks: seq<int>, a: Parts, b: Parts)
    requires forall i :: 0 <= i < |ks| ==> ks[i] in a && ks[i] in b && a[ks[i]].text == b[ks[i]].text
    ensures JoinInOrder(ks, a) == JoinInOrder(ks, b)
    decreases |ks|
  {
    if ks != [] {
      JoinInOrderAgrees(ks[1..], a, b);
    }
  }

  /** The same join computed with a loop that takes out the smallest part number each time. */
  method AssembleParts(parts: Parts) returns (text: string)
    ensures text == Assemble(parts)
  {
    text := "";
    var remaining := parts;
    while remaining != map[]
      invariant text + Assemble(remaining) == Assemble(parts)
      decreases |remaining|
    {
      ghost var least := MinPart(remaining.Keys);
      var m :| m in remaining && forall p :: p in remaining ==> m <= p;
      assert m == least;
      assert (remaining - {m}).Keys == remaining.Keys - {m};
      text := text + remaining[m].text;
      remaining := remaining - {m};
    }
  }

  // ---------------------------------------------------------------------------------------
  // Stale cleanup

  /** `timestamp < datetime('now', '-30 minutes')`, on seconds. */
  predicate Stale(fr: Fragment, now: int) {
    fr.timestamp < now - StaleSeconds
  }

  function KeepFresh(parts: Parts, now: int): (r: Parts)
    ensures r.Keys <= parts.Keys
    ensures forall p :: p in r <==> p in parts && !Stale(parts[p], now)
    ensures forall p :: p in r ==> r[p] == parts[p]
  {
    map p | p in parts && !Stale(parts[p], now) :: parts[p]
  }

  /** `cleanup_old_multipart`: deletes exactly the stale rows; every other row is kept as it is. */
  function RemoveStale(t: Table, now: int): (r: Table)
    ensures TableValid(r)
    ensures forall g :: g in r ==> g in t
    ensures forall g, p :: g in t && p in t[g] ==>
      (g in r && p in r[g] <==> !Stale(t[g][p], now))
    ensures forall g, p :: g in r && p in r[g] ==> p in t[g] && r[g][p] == t[g][p]
  {
    map g | g in t && KeepFresh(t[g], now) != map[] :: KeepFresh(t[g], now)
  }

  /** `stale_count > 0`: some row is older than 30 minutes. */
  predicate HasStale(t: Table, now: int) {
    exists g, p :: g in t && p in t[g] && Stale(t[g][p], now)
  }

  /** Without a stale row the cleanup changes nothing, so skipping it is the same as running it. */
  lemma RemoveStaleWithoutStaleRows(t: Table, now: int)
    requires TableValid(t)
    requires !HasStale(t, now)
    ensures RemoveStale(t, now) == t
  {
    var r := RemoveStale(t, now);
    forall g | g in t ensures g in r && r[g] == t[g] {
      forall p | p in t[g] ensures !Stale(t[g][p], now) {
        assert !(g in t && p in t[g] && Stale(t[g][p], now));
      }
      assert KeepFresh(t[g], now).Keys == t[g].Keys;
      assert KeepFresh(t[g], now) == t[g];
    }
    assert r.Keys == t.Keys;
  }

  // ---------------------------------------------------------------------------------------
  // One fragment arriving: `handle_multipart`

  /** The table after one incoming message, and the complete message it yields, if any. */
  datatype Ingested = Ingested(table: Table, complete: Option<Sms>)

  /** The rows stored for a group (none when the group is absent). */
  function Stored(t: Table, g: GroupKey): Parts {
    if g in t then t[g] else map[]
  }

  ghost function Ingest(t: Table, modemName: string, sms: Sms, now: int): Ingested {
    match FirstConcatenation(sms.udh)
    case None => Ingested(t, Some(sms))
    case Some(c) => IngestFragment(t, modemName, sms, c, now)
  }

  /** The message is fragment `c.number` of `c.parts` of group `c.reference`. */
  ghost function IngestFragment(t: Table, modemName: string, sms: Sms, c: UdhElement, now: int): Ingested
    requires c.Concatenation?
  {
    var g := GroupKey(sms.number, c.reference, modemName);
    var parts := Stored(t, g);
    if c.number in parts then Ingested(t, None)
    else
      var parts' := parts[c.number := Fragment(c.parts, sms.text, sms.time.seconds)];
      if |parts'| == c.parts then Ingested(t - {g}, Some(sms.(text := Assemble(parts'))))
      else Ingested(RemoveStale(t[g := parts'], now), None)
  }

  /** A scan that stops at the first Concatenation element ingests that element. */
  lemma IngestAtFirst(t: Table, modemName: string, sms: Sms, now: int, i: nat)
    requires i < |sms.udh| && sms.udh[i].Concatenation?
    requires forall k :: 0 <= k < i ==> !sms.udh[k].Concatenation?
    ensures Ingest(t, modemName, sms, now) == IngestFragment(t, modemName, sms, sms.udh[i], now)
  {
    FirstConcatenationAt(sms.udh, i);
  }

  /** Every table the processor produces keeps the no-empty-group invariant. */
  lemma IngestKeepsTableValid(t: Table, modemName: string, sms: Sms, now: int)
    requires TableValid(t)
    ensures TableValid(Ingest(t, modemName, sms, now).table)
  {
  }

  /** A message without a concatenation element passes through unchanged, as a complete message. */
  lemma SinglePartPassesThrough(t: Table, modemName: string, sms: Sms, now: int)
    requires forall i :: 0 <= i < |sms.udh| ==> !sms.udh[i].Concatenation?
    ensures Ingest(t, modemName, sms, now) == Ingested(t, Some(sms))
  {
  }

  /** A fragment whose key is already stored is a duplicate: nothing is returned or stored. */
  lemma DuplicateIsRejected(t: Table, modemName: string, sms: Sms, now: int, ref: int, total: int, part: int)
    requires FirstConcatenation(sms.udh) == Some(Concatenation(ref, total, part))
    requires GroupKey(sms.number, ref, modemName) in t && part in t[GroupKey(sms.number, ref, modemName)]
    ensures Ingest(t, modemName, sms, now) == Ingested(t, None)
  {
  }

  /**
   * When the fragment brings its group's row count to its `total_parts`, the result is the
   * message with the group's texts joined in ascending part order, the group's rows are all
   * deleted and no other row changes.
   */
  lemma CompletionJoinsAndDeletes(t: Table, modemName: string, sms: Sms, now: int, ref: int, total: int, part: int, ks: seq<int>)
    requires FirstConcatenation(sms.udh) == Some(Concatenation(ref, total, part))
    requires var parts := Stored(t, GroupKey(sms.number, ref, modemName));
      part !in parts && |parts| + 1 == total && StrictlyIncreasing(ks) && (set k | k in ks) == parts.Keys + {part}
    ensures Ingest(t, modemName, sms, now).table == t - {GroupKey(sms.number, ref, modemName)}
    ensures Ingest(t, modemName, sms, now).complete
         == Some(sms.(text := JoinInOrder(ks, Stored(t, GroupKey(sms.number, ref, modemName))[part := Fragment(total, sms.text, sms.time.seconds)])))
  {
    var g := GroupKey(sms.number, ref, modemName);
    var before := Stored(t, g);
    var parts := before[part := Fragment(total, sms.text, sms.time.seconds)];
    assert parts.Keys == before.Keys + {part};
    assert |parts| == total by {
      assert |parts.Keys| == |before.Keys| + 1;
    }
    assert Ingest(t, modemName, sms, now) == Ingested(t - {g}, Some(sms.(text := Assemble(parts))));
    AssembleIsAscending(ks, parts);
  }

  /**
   * A fragment that does not complete its group is stored (unless it is itself stale), nothing
   * is returned, and the stale cleanup deletes only stale rows.
   */
  lemma IncompleteIsStored(t: Table, modemName: string, sms: Sms, now: int, ref: int, total: int, part: int)
    requires FirstConcatenation(sms.udh) == Some(Concatenation(ref, total, part))
    requires var g := GroupKey(sms.number, ref, modemName);
      var parts := if g in t then t[g] else map[];
      part !in parts && |parts| + 1 != total
    ensures var g := GroupKey(sms.number, ref, modemName);
      var fr := Fragment(total, sms.text, sms.time.seconds);
      var r := Ingest(t, modemName, sms, now);
      && r.complete.None?
      && (g in r.table && part in r.table[g] <==> !Stale(fr, now))
      && (g in r.table && part in r.table[g] ==> r.table[g][part] == fr)
      && forall h, p :: h in t && p in t[h] ==>
           (h in r.table && p in r.table[h] <==> !Stale(t[h][p], now))
  {
    var g := GroupKey(sms.number, ref, modemName);
    var parts := if g in t then t[g] else map[];
    var fr := Fragment(total, sms.text, sms.time.seconds);
    var t' := t[g := parts[part := fr]];
    assert g in t' && part in t'[g] && t'[g][part] == fr;
    forall h, p | h in t && p in t[h]
      ensures p in t'[h] && t'[h][p] == t[h][p]
    {
      if h == g {
        assert p != part;
      }
    }
  }

  // ---------------------------------------------------------------------------------------
  // The stale cleanup as the code runs it

  /**
   * `handle_multipart` as written: the INSERT opens a transaction on the first connection, and
   * `cleanup_old_multipart` then opens a second connection whose DELETE cannot take the write
   * lock. None is the resulting "database is locked" error: the first connection rolls back, so
   * the table stays as it was and the error leaves `process_sms`. Every other path agrees with
   * the intended `IngestFragment`.
   */
  ghost function IngestFragmentAsWritten(t: Table, modemName: string, sms: Sms, c: UdhElement, now: int): Option<Ingested>
    requires c.Concatenation?
  {
    var g := GroupKey(sms.number, c.reference, modemName);
    var parts := Stored(t, g);
    if c.number in parts then Some(Ingested(t, None))
    else
      var parts' := parts[c.number := Fragment(c.parts, sms.text, sms.time.seconds)];
      if |parts'| == c.parts then Some(Ingested(t - {g}, Some(sms.(text := Assemble(parts')))))
      else if HasStale(t[g := parts'], now) then None
      else Some(Ingested(t[g := parts'], None))
  }

  /**
   * The code as written fails exactly when a fragment that does not complete its group finds a
   * stale row (its own included); whenever it does not fail it does what `IngestFragment` does.
   */
  lemma AsWrittenAgreesWithoutStale(t: Table, modemName: string, sms: Sms, c: UdhElement, now: int)
    requires c.Concatenation? && TableValid(t)
    ensures var g := GroupKey(sms.number, c.reference, modemName);
      var parts := Stored(t, g);
      var parts' := parts[c.number := Fragment(c.parts, sms.text, sms.time.seconds)];
      (IngestFragmentAsWritten(t, modemName, sms, c, now).None? <==>
       c.number !in parts && |parts'| != c.parts && HasStale(t[g := parts'], now))
    ensures IngestFragmentAsWritten(t, modemName, sms, c, now).Some? ==>
      IngestFragmentAsWritten(t, modemName, sms, c, now).value == IngestFragment(t, modemName, sms, c, now)
  {
    var g := GroupKey(sms.number, c.reference, modemName);
    var parts := Stored(t, g);
    var parts' := parts[c.number := Fragment(c.parts, sms.text, sms.time.seconds)];
    if c.number !in parts && |parts'| != c.parts && !HasStale(t[g := parts'], now) {
      assert TableValid(t[g := parts']) by {
        assert c.number in parts';
      }
      RemoveStaleWithoutStaleRows(t[g := parts'], now);
    }
  }

  /**
   * The discrepancy: with a stale row already stored, a fragment that does not complete its
   * group makes the code as written fail and keep the table, stale row and all, while the
   * intended behaviour stores the fragment and deletes that row.
   */
  lemma StaleRowBlocksStore(t: Table, modemName: string, sms: Sms, c: UdhElement, now: int)
    requires c.Concatenation?
    requires var parts := Stored(t, GroupKey(sms.number, c.reference, modemName));
      c.number !in parts && |parts| + 1 != c.parts
    requires HasStale(t, now)
    ensures IngestFragmentAsWritten(t, modemName, sms, c, now) == None
    ensures IngestFragment(t, modemName, sms, c, now).table != t
  {
    var g := GroupKey(sms.number, c.reference, modemName);
    var parts := Stored(t, g);
    var parts' := parts[c.number := Fragment(c.parts, sms.text, sms.time.seconds)];
    assert |parts'| == |parts| + 1 by {
      assert parts'.Keys == parts.Keys + {c.number};
    }
    var t' := t[g := parts'];
    var h, p :| h in t && p in t[h] && Stale(t[h][p], now);
    assert p in t'[h] && t'[h][p] == t[h][p] by {
      if h == g {
        assert p != c.number;
      }
    }
    assert HasStale(t', now);
    var r := RemoveStale(t', now);
    assert !(h in r && p in r[h]);
  }
}
