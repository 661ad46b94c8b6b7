/** The append-only audit log: one record per line under short writes and failures. */
module AuditLog {
  newtype byte = b: int | 0 <= b < 256

  const NEWLINE: byte := 10

  type Bytes = seq<byte>

  // ---- Records in a file ------------------------------------------------------------------

  /** Terminated lines, and the bytes after the last newline. */
  function Split(content: Bytes): (seq<Bytes>, Bytes) {
    if content == [] then ([], [])
    else
      var (lines, tail) := Split(content[..|content| - 1]);
      var b := content[|content| - 1];
      if b == NEWLINE then (lines + [tail], []) else (lines, tail + [b])
  }

  /** What a reader sees: every terminated line, and an unterminated rest as a line of its own. */
  function Records(content: Bytes): seq<Bytes> {
    var (lines, tail) := Split(content);
    lines + (if tail == [] then [] else [tail])
  }

  /** Lines written out, each with its newline. */
  function Joined(lines: seq<Bytes>): Bytes {
    if lines == [] then [] else Joined(lines[..|lines| - 1]) + lines[|lines| - 1] + [10]
  }

  lemma {:induction false} SplitRebuilds(content: Bytes)
    ensures Joined(Split(content).0) + Split(content).1 == content
    ensures 10 !in Split(content).1 && forall i :: 0 <= i < |Split(content).0| ==> 10 !in Split(content).0[i]
  {
    if content != [] {
      var rest, b := content[..|content| - 1], content[|content| - 1];
      var (lines, tail) := Split(rest);
      SplitRebuilds(rest);
      assert content == rest + [b];
      assert (lines + [tail])[..|lines|] == lines;
      assert Joined(lines) + (tail + [b]) == Joined(lines) + tail + [b];
    }
  }

  /** The records are the lines of the file and hold no newline: written out they are the file
      again, but for the newline that an unterminated rest lacks. */
  lemma RecordsAreLines(content: Bytes)
    ensures forall i :: 0 <= i < |Records(content)| ==> 10 !in Records(content)[i]
    ensures Joined(Records(content)) ==
      if content == [] || content[|content| - 1] == 10 then content else content + [10]
  {
    var (lines, tail) := Split(content);
    SplitRebuilds(content);
    TailEmpty(content);
    if tail == [] {
      assert lines + [] == lines;
    } else {
      assert (lines + [tail])[..|lines|] == lines;
    }
  }

  lemma SplitNewline(content: Bytes)
    ensures Split(content + [NEWLINE]) == (Split(content).0 + [Split(content).1], [])
  {
    assert (content + [NEWLINE])[..|content|] == content;
  }

  lemma {:induction false} SplitAppend(content: Bytes, text: Bytes)
    requires NEWLINE !in text
    ensures Split(content + text) == (Split(content).0, Split(content).1 + text)
  {
    if text == [] {
      assert content + text == content && Split(content).1 + text == Split(content).1;
    } else {
      var rest := text[..|text| - 1];
      SplitAppend(content, rest);
      assert (content + text)[..|content + text| - 1] == content + rest;
      assert Split(content).1 + text == Split(content).1 + rest + [text[|text| - 1]];
    }
  }

  /** The tail is empty exactly when the file is empty or ends in a newline. */
  lemma TailEmpty(content: Bytes)
    ensures Split(content).1 == [] <==> content == [] || content[|content| - 1] == NEWLINE
  {
  }

  /** Terminating an unterminated rest changes no record. */
  lemma TerminationKeepsRecords(content: Bytes)
    requires Split(content).1 != []
    ensures Records(content + [NEWLINE]) == Records(content) && Split(content + [NEWLINE]).1 == []
  {
    SplitNewline(content);
  }

  /** The first n bytes of a record's line, as a reader sees them. */
  function Shown(payload: Bytes, n: nat): seq<Bytes>
    requires n <= |payload| + 1
  {
    if n == 0 then [] else if n <= |payload| then [payload[..n]] else [payload]
  }

  /** Writing part of a line after a complete one adds that part as one record, or nothing. */
  lemma PartialLine(content: Bytes, payload: Bytes, n: nat)
    requires NEWLINE !in payload && Split(content).1 == [] && n <= |payload| + 1
    ensures Records(content + (payload + [NEWLINE])[..n]) == Records(content) + Shown(payload, n)
    ensures 0 < n <= |payload| ==> Split(content + (payload + [NEWLINE])[..n]).1 != []
  {
    if n <= |payload| {
      assert (payload + [NEWLINE])[..n] == payload[..n];
      SplitAppend(content, payload[..n]);
      var lines := Split(content).0;
      assert [] + payload[..n] == payload[..n] && lines + [] == lines;
      if n == 0 {
        assert content + payload[..0] == content;
      }
    } else {
      assert (payload + [NEWLINE])[..n] == payload + [NEWLINE];
      assert content + (payload + [NEWLINE]) == (content + payload) + [NEWLINE];
      SplitAppend(content, payload);
      SplitNewline(content + payload);
      var lines := Split(content).0;
      assert [] + payload == payload && lines + [] == lines && lines + [payload] + [] == lines + [payload];
    }
  }

  // ---- The file ---------------------------------------------------------------------------

  /** An open log whose writes may stop anywhere and whose every call may fail; faults counts the
      calls that did. */
  class LogFile {
    var content: Bytes
    ghost var faults: nat

    constructor (initial: Bytes)
      ensures content == initial && faults == 0
    {
      content, faults := initial, 0;
    }

    /** Appends the first n bytes; an error may come with any n. */
    method Write(data: Bytes) returns (n: nat, failed: bool)
      modifies this
      ensures n <= |data| && content == old(content) + data[..n]
      ensures faults == old(faults) + (if failed || n < |data| then 1 else 0)
    {
      var wrote: int := *;
      n := if wrote < 0 then 0 else if wrote > |data| then |data| else wrote;
      failed := *;
      content := content + data[..n];
      faults := faults + (if failed || n < |data| then 1 else 0);
    }

    /** A call that leaves the content alone: syncing, locking, closing or inspecting the file. */
    method Attempt() returns (ok: bool)
      modifies this`faults
      ensures faults == old(faults) + (if ok then 0 else 1)
    {
      ok := *;
      faults := faults + (if ok then 0 else 1);
    }

    /** Whether the last byte is not a newline; inspecting the file may fail. */
    method NeedsRecordSeparator() returns (ok: bool, needed: bool)
      modifies this`faults
      ensures faults == old(faults) + (if ok then 0 else 1)
      ensures ok ==> (needed <==> Split(content).1 != [])
    {
      ok := Attempt();
      TailEmpty(content);
      needed := |content| != 0 && content[|content| - 1] != NEWLINE;
    }

    /** Writes the newline of an unterminated record. */
    method TerminatePartialRecord() returns (ok: bool)
      requires Split(content).1 != []
      modifies this
      ensures Records(content) == Records(old(content))
      ensures ok ==> Split(content).1 == []
      ensures old(faults) <= faults && (ok <==> faults == old(faults))
    {
      var n, failed := Write([NEWLINE]);
      ok := !failed && n == 1;
      if n == 1 {
        assert [NEWLINE][..1] == [NEWLINE];
        TerminationKeepsRecords(old(content));
        var synced := Attempt();
        ok := ok && synced;
      } else {
        assert old(content) + [NEWLINE][..n] == old(content);
      }
    }

    method RepairAbandonedRecord() returns (ok: bool)
      modifies this
      ensures Records(content) == Records(old(content))
      ensures ok ==> Split(content).1 == []
      ensures old(faults) <= faults && (ok <==> faults == old(faults))
    {
      var inspected, needed := NeedsRecordSeparator();
      if !inspected {
        return false;
      }
      if !needed {
        return true;
      }
      ok := TerminatePartialRecord();
    }

    /** Adds one line. Acknowledged, exactly when nothing failed, it is the whole payload; not
        acknowledged, it is at most one record holding a prefix of the payload, terminated unless
        that failed too. Earlier records never change. */
    method AppendLocked(payload: Bytes) returns (ok: bool, ghost added: seq<Bytes>)
      requires NEWLINE !in payload
      modifies this
      ensures Records(content) == Records(old(content)) + added
      ensures AddedBy(payload, ok, added)
      ensures old(faults) <= faults && (ok <==> faults == old(faults))
      ensures added != [] && faults <= old(faults) + 1 ==> Split(content).1 == []
    {
      added := [];
      var repaired := RepairAbandonedRecord();
      if !repaired {
        return false, [];
      }
      ghost var before := content;
      var line := payload + [NEWLINE];
      var n, failed := Write(line);
      PartialLine(before, payload, n);
      added := Shown(payload, n);
      ok := !failed && n == |line|;
      if ok {
        ok := Attempt();
      }
      if !ok && 0 < n < |line| {
        var terminated := TerminatePartialRecord();
      }
    }

    /** The same under the log's lock; acknowledged exactly when every step succeeded. */
    method AppendFile(payload: Bytes) returns (ok: bool, ghost added: seq<Bytes>)
      requires NEWLINE !in payload
      modifies this
      ensures Records(content) == Records(old(content)) + added
      ensures AddedBy(payload, ok, added)
      ensures ok <==> faults == old(faults)
      ensures added != [] && faults <= old(faults) + 1 ==> Split(content).1 == []
    {
      added := [];
      ok := Attempt();
      if ok {
        ok := Attempt();
        if ok {
          ok, added := AppendLocked(payload);
        }
        var unlocked := Attempt();
        ok := ok && unlocked;
      }
      var closed := Attempt();
      ok := ok && closed;
    }
  }

  /** What one attempt adds. */
  predicate AddedBy(payload: Bytes, acknowledged: bool, added: seq<Bytes>) {
    && |added| <= 1
    && (added != [] ==> added[0] <= payload)
    && (acknowledged ==> added == [payload])
  }

  // ---- Any number of attempts -------------------------------------------------------------

  /** Records seen before, between and after a sequence of attempts. */
  ghost predicate History(seen: seq<seq<Bytes>>, payloads: seq<Bytes>, acks: seq<bool>, added: seq<seq<Bytes>>) {
    && |seen| == |payloads| + 1 && |acks| == |payloads| && |added| == |payloads|
    && forall i :: 0 <= i < |payloads| ==> seen[i + 1] == seen[i] + added[i] && AddedBy(payloads[i], acks[i], added[i])
  }

  method AppendAll(f: LogFile, payloads: seq<Bytes>)
    returns (acks: seq<bool>, ghost seen: seq<seq<Bytes>>, ghost added: seq<seq<Bytes>>)
    requires forall p :: p in payloads ==> NEWLINE !in p
    modifies f
    ensures History(seen, payloads, acks, added)
    ensures seen[0] == Records(old(f.content)) && seen[|payloads|] == Records(f.content)
  {
    acks, seen, added := [], [Records(f.content)], [];
    for i := 0 to |payloads|
      invariant History(seen, payloads[..i], acks, added)
      invariant seen[0] == Records(old(f.content)) && seen[i] == Records(f.content)
    {
      var ok;
      ghost var lines;
      ok, lines := f.AppendFile(payloads[i]);
      acks, seen, added := acks + [ok], seen + [Records(f.content)], added + [lines];
    }
    assert payloads[..|payloads|] == payloads;
  }

  function Flatten(added: seq<seq<Bytes>>): seq<Bytes> {
    if added == [] then [] else Flatten(added[..|added| - 1]) + added[|added| - 1]
  }

  /** Acknowledged payloads, in order. */
  function Acknowledged(payloads: seq<Bytes>, acks: seq<bool>): seq<Bytes>
    requires |acks| == |payloads|
  {
    if payloads == [] then []
    else
      var last := |payloads| - 1;
      Acknowledged(payloads[..last], acks[..last]) + (if acks[last] then [payloads[last]] else [])
  }

  /** The first list is what remains of the second after leaving out some elements. */
  predicate Subsequence<T(==)>(part: seq<T>, whole: seq<T>)
    decreases |whole|
  {
    if part == [] then true
    else if whole == [] then false
    else if part[|part| - 1] == whole[|whole| - 1] && Subsequence(part[..|part| - 1], whole[..|whole| - 1]) then true
    else Subsequence(part, whole[..|whole| - 1])
  }

  lemma SubsequenceKeep<T>(part: seq<T>, whole: seq<T>, x: T)
    requires Subsequence(part, whole)
    ensures Subsequence(part + [x], whole + [x]) && Subsequence(part, whole + [x])
  {
    assert (part + [x])[..|part|] == part && (whole + [x])[..|whole|] == whole;
  }

  /** Over any number of attempts and failures, the log is the old records followed by what the
      attempts added, and the acknowledged payloads are whole lines of it in acknowledgement order. */
  lemma {:induction false} AcknowledgedAreLines(seen: seq<seq<Bytes>>, payloads: seq<Bytes>, acks: seq<bool>,
                                                added: seq<seq<Bytes>>)
    requires History(seen, payloads, acks, added)
    ensures seen[|payloads|] == seen[0] + Flatten(added)
    ensures Subsequence(Acknowledged(payloads, acks), Flatten(added))
  {
    if payloads != [] {
      var last := |payloads| - 1;
      AcknowledgedAreLines(seen[..last + 1], payloads[..last], acks[..last], added[..last]);
      assert AddedBy(payloads[last], acks[last], added[last]);
      OneMoreAttempt(Acknowledged(payloads[..last], acks[..last]), Flatten(added[..last]),
                     payloads[last], acks[last], added[last]);
    }
  }

  lemma OneMoreAttempt(acked: seq<Bytes>, lines: seq<Bytes>, payload: Bytes, ack: bool, added: seq<Bytes>)
    requires Subsequence(acked, lines) && AddedBy(payload, ack, added)
    ensures Subsequence(acked + (if ack then [payload] else []), lines + added)
  {
    assert acked + [] == acked && lines + [] == lines;
    if added != [] {
      assert added == [added[0]];
      SubsequenceKeep(acked, lines, added[0]);
    }
  }

  /** Each acknowledged payload stands at its own place: right after what was there when it began. */
  lemma {:induction false} AcknowledgedAt(seen: seq<seq<Bytes>>, payloads: seq<Bytes>, acks: seq<bool>,
                                          added: seq<seq<Bytes>>, i: nat)
    requires History(seen, payloads, acks, added) && i < |payloads| && acks[i]
    ensures |seen[i]| < |seen[|payloads|]| && seen[|payloads|][|seen[i]|] == payloads[i]
    ensures seen[i] <= seen[|payloads|]
  {
    assert AddedBy(payloads[i], acks[i], added[i]);
    RecordsOnlyGrow(seen, payloads, acks, added, i + 1, |payloads|);
  }

  lemma {:induction false} RecordsOnlyGrow(seen: seq<seq<Bytes>>, payloads: seq<Bytes>, acks: seq<bool>,
                                           added: seq<seq<Bytes>>, i: nat, j: nat)
    requires History(seen, payloads, acks, added) && i <= j <= |payloads|
    ensures seen[i] <= seen[j]
  {
    if i < j {
      RecordsOnlyGrow(seen, payloads, acks, added, i, j - 1);
      assert seen[j] == seen[j - 1] + added[j - 1];
    }
  }
}
