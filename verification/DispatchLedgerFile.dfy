/**
 The ledger of an application as bytes. The disk of `DispatchApplication` says which rows were written and whether the
 file can be read back; here that is shown to be what the bytes amount to.
 */
module DispatchLedgerFile {
  import opened Common
  import opened Ledger
  import opened LedgerFile
  import opened LedgerFraming
  import opened DispatchApplication
  import opened DispatchSafety

  /** A file that reads as some rows, followed by a row that broke its line and whatever was appended since. */
  ghost predicate Broken(hash: Hash, codec: Codec, raw: seq<Byte>) {
    exists good, rows, r, later {:trigger BrokenBy(hash, codec, raw, good, rows, r, later)} ::
      BrokenBy(hash, codec, raw, good, rows, r, later)
  }

  ghost predicate BrokenBy(hash: Hash, codec: Codec, raw: seq<Byte>, good: seq<Byte>, rows: seq<Record>, r: Record,
    later: seq<Record>)
  {
    ReadLedger(hash, codec, Some(good)) == Ok(rows) && !OneLine(r) && raw == (good + Frame([r])) + Frame(later)
  }

  /** The bytes of the ledger file that the disk stands for. */
  ghost predicate Holds(hash: Hash, codec: Codec, raw: seq<Byte>, rows: seq<Record>, readable: bool) {
    if readable then ReadLedger(hash, codec, Some(raw)) == Ok(rows) else Broken(hash, codec, raw)
  }

  /** Reading the file succeeds exactly when the disk says it is readable, and then gives the rows of the disk. */
  lemma HeldReads(hash: Hash, codec: Codec, raw: seq<Byte>, rows: seq<Record>, readable: bool)
    requires Faithful(codec) && Holds(hash, codec, raw, rows, readable)
    ensures if readable then ReadLedger(hash, codec, Some(raw)) == Ok(rows) else ReadLedger(hash, codec, Some(raw)).Err?
  {
    hide ReadLedger, Frame, OneLine, Faithful;
    if !readable {
      var good, before, r, later :| BrokenBy(hash, codec, raw, good, before, r, later);
      BrokenStaysBroken(hash, codec, good, before, r, later);
    }
  }

  /** Appending rows to the file is appending them on the disk, which stays readable if every row stays on its line. */
  lemma {:induction false} AppendHeld(hash: Hash, codec: Codec, raw: seq<Byte>, rows: seq<Record>, readable: bool,
    added: seq<Record>)
    requires Faithful(codec) && Holds(hash, codec, raw, rows, readable) && WellChained(hash, rows + added)
    ensures Holds(hash, codec, raw + Frame(added), rows + added, readable && AllOneLine(added))
    decreases |added|
  {
    hide ReadLedger, Frame, OneLine, Faithful, WellChained;
    if added == [] {
      EmptyFrame(raw);
      assert rows + [] == rows;
    } else if !readable {
      var good, before, r, later :| BrokenBy(hash, codec, raw, good, before, r, later);
      FrameConcat(later, added);
      Assoc(good + Frame([r]), Frame(later), Frame(added));
      assert BrokenBy(hash, codec, raw + Frame(added), good, before, r, later + added);
    } else {
      var r, rest := added[0], added[1..];
      assert added == [r] + rest;
      FrameSplit(raw, r, rest);
      Assoc(rows, [r], rest);
      assert (rows + added)[..|rows| + 1] == rows + [r];
      PrefixWellChained(hash, rows + added, |rows| + 1);
      AppendRoundTrip(hash, codec, raw, rows, r);
      if OneLine(r) {
        AppendHeld(hash, codec, raw + Frame([r]), rows + [r], true, rest);
      } else {
        assert BrokenBy(hash, codec, raw + Frame(added), raw, rows, r, rest);
      }
    }
  }

  lemma EmptyFrame(raw: seq<Byte>)
    ensures raw + Frame([]) == raw
  {}

  /** Every ledger write of an application, and of other leases in between, is one append of bytes. */
  lemma WritesAppend(p: Application, codec: Codec, raw: seq<Byte>, d: Disk, after: Disk, row: Record)
    requires Faithful(codec) && Holds(p.hash, codec, raw, d.ledger, d.readable)
    ensures after == WithRow(d, row) && WellChained(p.hash, after.ledger) ==>
      Holds(p.hash, codec, raw + Frame([row]), after.ledger, after.readable)
    ensures ForeignAppend(p, d, after) ==>
      Holds(p.hash, codec, raw + Frame(after.ledger[|d.ledger|..]), after.ledger, after.readable)
  {
    hide ReadLedger, Frame, OneLine, Faithful, WellChained, Holds;
    if after == WithRow(d, row) && WellChained(p.hash, after.ledger) {
      AppendHeld(p.hash, codec, raw, d.ledger, d.readable, [row]);
      assert AllOneLine([row]) <==> OneLine(row) by { assert row in [row]; }
    }
    if ForeignAppend(p, d, after) {
      assert after.ledger == d.ledger + after.ledger[|d.ledger|..];
      AppendHeld(p.hash, codec, raw, d.ledger, d.readable, after.ledger[|d.ledger|..]);
    }
  }
}
