/** The first stage of a pass: walk one search page of records, abort on a record without
    confirmation metadata, skip everything that is not a marked transfer, and keep the rest
    as normalised transactions in the page's newest-first order. */
module Normalize {
  import opened Types

  /** The metadata check run on every record, before its kind is looked at: the first
      missing piece, in the order transactionInfo, hash, timestamp. An empty hash is falsy
      and counts as missing; a timestamp object is truthy even when its value is 0. */
  function Missing(rec: Record): (m: Option<Failure>)
    ensures m == None <==>
      rec.info.Some? && rec.info.value.hash.Some? && rec.info.value.hash.value != ""
      && rec.info.value.timestamp.Some?
    ensures m.Some? ==> m.value in {MissingTransactionInfo, MissingHash, MissingTimestamp}
  {
    match rec.info
    case None => Some(MissingTransactionInfo)
    case Some(info) =>
      if info.hash.None? || info.hash.value == "" then Some(MissingHash)
      else if info.timestamp.None? then Some(MissingTimestamp)
      else None
  }

  /** A record that passes the metadata check and is a transfer carrying the marker. */
  predicate Selected(rec: Record) {
    Missing(rec) == None && rec.body.Transfer? && rec.body.payload == Marker
  }

  /** The normalised form of a selected record: the network timestamp shifted by the
      epoch adjustment, given in seconds. */
  function Normalized(rec: Record, epoch: int): (t: Transaction)
    requires Selected(rec)
    ensures t.hash == rec.info.value.hash.value
    ensures t.timestamp - rec.info.value.timestamp.value == epoch * 1000
  {
    Transaction(rec.info.value.hash.value, epoch * 1000 + rec.info.value.timestamp.value)
  }

  /** The failure of the first record that lacks metadata, if any. */
  function FirstMissing(recs: seq<Record>): Option<Failure> {
    if recs == [] then None
    else if Missing(recs[0]).Some? then Missing(recs[0])
    else FirstMissing(recs[1..])
  }

  /** The normalised selected records, in page order. */
  function Kept(recs: seq<Record>, epoch: int): seq<Transaction> {
    if recs == [] then []
    else (if Selected(recs[0]) then [Normalized(recs[0], epoch)] else [])
         + Kept(recs[1..], epoch)
  }

  /** What one pass over a page yields: the first metadata failure, or the kept list. */
  function NormalizePage(recs: seq<Record>, epoch: int): Result<seq<Transaction>, Failure> {
    match FirstMissing(recs)
    case Some(f) => Err(f)
    case None => Ok(Kept(recs, epoch))
  }

  /** The filter loop of the page: pushes each selected record, in order, onto a fresh list
      and throws at the first record without metadata. */
  method NormalizeRecords(recs: seq<Record>, epoch: int) returns (r: Result<seq<Transaction>, Failure>)
    ensures r == NormalizePage(recs, epoch)
  {
    var transactions: seq<Transaction> := [];
    var i := 0;
    while i < |recs|
      invariant 0 <= i <= |recs|
      invariant FirstMissing(recs[..i]) == None
      invariant transactions == Kept(recs[..i], epoch)
    {
      var rec := recs[i];
      FirstMissingAppend(recs[..i], [rec]);
      KeptAppend(recs[..i], [rec], epoch);
      assert recs[..i + 1] == recs[..i] + [rec];
      var missing := Missing(rec);
      if missing.Some? {
        FirstMissingAppend(recs[..i + 1], recs[i + 1..]);
        assert recs == recs[..i + 1] + recs[i + 1..];
        return Err(missing.value);
      }
      if !rec.body.Transfer? {
        i := i + 1;
        continue;
      }
      if rec.body.payload != Marker {
        i := i + 1;
        continue;
      }
      transactions := transactions + [Normalized(rec, epoch)];
      i := i + 1;
    }
    assert recs[..i] == recs;
    r := Ok(transactions);
  }

  /** The first failure of a concatenation comes from the first part, if that has one. */
  lemma {:induction false} FirstMissingAppend(a: seq<Record>, b: seq<Record>)
    ensures FirstMissing(a + b) == if FirstMissing(a).Some? then FirstMissing(a) else FirstMissing(b)
  {
    if a == [] {
      assert a + b == b;
    } else {
      assert (a + b)[0] == a[0];
      assert (a + b)[1..] == a[1..] + b;
      FirstMissingAppend(a[1..], b);
    }
  }

  /** Filtering distributes over concatenation, so the kept list keeps page order. */
  lemma {:induction false} KeptAppend(a: seq<Record>, b: seq<Record>, epoch: int)
    ensures Kept(a + b, epoch) == Kept(a, epoch) + Kept(b, epoch)
  {
    if a == [] {
      assert a + b == b;
    } else {
      assert (a + b)[0] == a[0];
      assert (a + b)[1..] == a[1..] + b;
      KeptAppend(a[1..], b, epoch);
    }
  }

  /** A pass fails exactly when some record lacks metadata, whatever its kind, and it fails
      with the failure of the first such record. */
  lemma {:induction false} FailsIffSomeRecordMissing(recs: seq<Record>, epoch: int)
    ensures NormalizePage(recs, epoch).Err? <==> exists i :: 0 <= i < |recs| && Missing(recs[i]).Some?
    ensures NormalizePage(recs, epoch).Err? ==>
      exists i :: 0 <= i < |recs| && Missing(recs[i]) == Some(NormalizePage(recs, epoch).error)
        && forall j :: 0 <= j < i ==> Missing(recs[j]) == None
  {
    if recs != [] {
      FailsIffSomeRecordMissing(recs[1..], epoch);
      if Missing(recs[0]).None? {
        if NormalizePage(recs, epoch).Err? {
          var i :| 0 <= i < |recs[1..]| && Missing(recs[1..][i]) == Some(NormalizePage(recs[1..], epoch).error)
            && forall j :: 0 <= j < i ==> Missing(recs[1..][j]) == None;
          assert forall j :: 0 <= j < i + 1 ==> Missing(recs[j]) == None by {
            forall j | 0 <= j < i + 1 ensures Missing(recs[j]) == None {
              if j > 0 { assert recs[j] == recs[1..][j - 1]; }
            }
          }
          assert Missing(recs[i + 1]) == Some(NormalizePage(recs, epoch).error);
        }
        if exists i :: 0 <= i < |recs| && Missing(recs[i]).Some? {
          var i :| 0 <= i < |recs| && Missing(recs[i]).Some?;
          assert recs[1..][i - 1] == recs[i];
        }
      }
    }
  }

  /** A transaction is kept exactly when it is the normalised form of a selected record. */
  lemma {:induction false} KeptMembers(recs: seq<Record>, epoch: int, t: Transaction)
    ensures t in Kept(recs, epoch) <==>
      exists i :: 0 <= i < |recs| && Selected(recs[i]) && t == Normalized(recs[i], epoch)
  {
    if recs != [] {
      KeptMembers(recs[1..], epoch, t);
      if exists i :: 0 <= i < |recs| && Selected(recs[i]) && t == Normalized(recs[i], epoch) {
        var i :| 0 <= i < |recs| && Selected(recs[i]) && t == Normalized(recs[i], epoch);
        if i > 0 { assert recs[1..][i - 1] == recs[i]; }
      }
      if t in Kept(recs[1..], epoch) {
        var i :| 0 <= i < |recs[1..]| && Selected(recs[1..][i]) && t == Normalized(recs[1..][i], epoch);
        assert recs[i + 1] == recs[1..][i];
      }
    }
  }

  /** Every kept transaction's timestamp is the epoch adjustment in milliseconds plus the
      network timestamp of the record it comes from. */
  lemma {:induction false} KeptTimestamps(recs: seq<Record>, epoch: int, t: Transaction)
    requires t in Kept(recs, epoch)
    ensures exists i :: (0 <= i < |recs| && Selected(recs[i]) && t.hash == recs[i].info.value.hash.value
                         && t.timestamp == epoch * 1000 + recs[i].info.value.timestamp.value)
  {
    KeptMembers(recs, epoch, t);
  }

  /** The kept list is never longer than the page. */
  lemma {:induction false} KeptBound(recs: seq<Record>, epoch: int)
    ensures |Kept(recs, epoch)| <= |recs|
    ensures |Kept(recs, epoch)| == |recs| <==> forall i :: 0 <= i < |recs| ==> Selected(recs[i])
  {
    if recs != [] {
      KeptBound(recs[1..], epoch);
      if forall i :: 0 <= i < |recs[1..]| ==> Selected(recs[1..][i]) {
        if Selected(recs[0]) {
          forall i | 0 <= i < |recs| ensures Selected(recs[i]) {
            if i > 0 { assert recs[i] == recs[1..][i - 1]; }
          }
        }
      } else {
        var i :| 0 <= i < |recs[1..]| && !Selected(recs[1..][i]);
        assert !Selected(recs[i + 1]);
      }
    }
  }

  /** A marked transfer without a hash aborts the pass even though it would be kept, and an
      unmarked record without metadata aborts it even though it would be skipped. */
  lemma MetadataCheckedBeforeKind(epoch: int)
    ensures NormalizePage([Record(Some(TransactionInfo(Some(""), Some(5))), Transfer(Marker))], epoch)
      == Err(MissingHash)
    ensures NormalizePage([Record(None, NonTransfer)], epoch) == Err(MissingTransactionInfo)
    ensures NormalizePage([Record(Some(TransactionInfo(Some("A"), Some(5))), Transfer("not-a-match"))], epoch)
      == Ok([])
  {
    var rec := Record(Some(TransactionInfo(Some("A"), Some(5))), Transfer("not-a-match"));
    assert Marker[0] != "not-a-match"[0];
    assert [rec][1..] == [];
    assert !Selected(rec);
    assert FirstMissing([rec]) == None;
    assert Kept([rec], epoch) == [] + Kept([], epoch);
  }
}
