/** Waiting for a sync hint on an event stream. Bytes arrive in chunks of any size; a record
    ends at a blank line, written LF LF or CR LF CR LF. Other blank lines that section 9.2.6 of
    the WHATWG HTML Living Standard allows (CR CR, and mixed endings) are not recognised. */
module SseFraming {
  import opened Basics

  type Byte = bv8

  const LF: Byte := 10
  const CR: Byte := 13

  /** What a record that is complete says: nothing (a comment or keep-alive), or the answer of
      the call, a hint or an error. */
  type Reader<!A> = seq<Byte> -> Option<A>

  datatype End = End(at: nat, width: nat)

  predicate CrlfAt(bytes: seq<Byte>, i: int) {
    0 <= i && i + 4 <= |bytes| && bytes[i] == CR && bytes[i + 1] == LF && bytes[i + 2] == CR && bytes[i + 3] == LF
  }

  predicate LfAt(bytes: seq<Byte>, i: int) {
    0 <= i && i + 2 <= |bytes| && bytes[i] == LF && bytes[i + 1] == LF
  }

  /** `windows(n).position(..)`: the first place from `i` on. */
  function FirstCrlf(bytes: seq<Byte>, i: nat): (r: Option<nat>)
    requires i <= |bytes|
    ensures r.Some? ==> i <= r.value && CrlfAt(bytes, r.value)
    ensures forall k :: i <= k && (r.Some? ==> k < r.value) ==> !CrlfAt(bytes, k)
    decreases |bytes| - i
  {
    if CrlfAt(bytes, i) then Some(i) else if i == |bytes| then None else FirstCrlf(bytes, i + 1)
  }

  function FirstLf(bytes: seq<Byte>, i: nat): (r: Option<nat>)
    requires i <= |bytes|
    ensures r.Some? ==> i <= r.value && LfAt(bytes, r.value)
    ensures forall k :: i <= k && (r.Some? ==> k < r.value) ==> !LfAt(bytes, k)
    decreases |bytes| - i
  {
    if LfAt(bytes, i) then Some(i) else if i == |bytes| then None else FirstLf(bytes, i + 1)
  }

  function FindRecordEnd(bytes: seq<Byte>): (r: Option<End>)
    ensures r.Some? ==> r.value.width in {2, 4} && r.value.at + r.value.width <= |bytes|
  {
    match (FirstCrlf(bytes, 0), FirstLf(bytes, 0))
    case (Some(crlf), Some(lf)) => if crlf <= lf then Some(End(crlf, 4)) else Some(End(lf, 2))
    case (Some(crlf), None) => Some(End(crlf, 4))
    case (None, Some(lf)) => Some(End(lf, 2))
    case (None, None) => None
  }

  /** A blank line starts here. */
  predicate BlankAt(bytes: seq<Byte>, i: int, width: nat) {
    (width == 4 && CrlfAt(bytes, i)) || (width == 2 && LfAt(bytes, i))
  }

  /** The search finds the first blank line, and only one kind can start there. */
  lemma FindsTheFirstBlankLine(bytes: seq<Byte>, end: End)
    ensures FindRecordEnd(bytes) == Some(end) <==>
            BlankAt(bytes, end.at, end.width) && forall k, w :: 0 <= k < end.at ==> !BlankAt(bytes, k, w)
    ensures FindRecordEnd(bytes).None? <==> forall k, w :: !BlankAt(bytes, k, w)
  {
    var crlf, lf := FirstCrlf(bytes, 0), FirstLf(bytes, 0);
    if crlf.Some? { assert BlankAt(bytes, crlf.value, 4); }
    if lf.Some? { assert BlankAt(bytes, lf.value, 2); }
  }

  /** More bytes never move the end of a record that is already complete. */
  lemma EndIsStable(bytes: seq<Byte>, more: seq<Byte>)
    requires FindRecordEnd(bytes).Some?
    ensures FindRecordEnd(bytes + more) == FindRecordEnd(bytes)
  {
    var end := FindRecordEnd(bytes).value;
    var all := bytes + more;
    FindsTheFirstBlankLine(bytes, end);
    assert BlankAt(all, end.at, end.width);
    forall k, w | 0 <= k < end.at ensures !BlankAt(all, k, w) {
      assert !BlankAt(bytes, k, 2) && !BlankAt(bytes, k, 4);
      if BlankAt(all, k, w) { EarlierFits(bytes, more, end, k, w); }
    }
    FindsTheFirstBlankLine(all, end);
  }

  /** A blank line that would start before the found one would have to fit in as well. */
  lemma EarlierFits(bytes: seq<Byte>, more: seq<Byte>, end: End, k: nat, width: nat)
    requires BlankAt(bytes, end.at, end.width) && k < end.at && BlankAt(bytes + more, k, width)
    ensures BlankAt(bytes, k, width)
  {
    var all := bytes + more;
    assert forall i :: 0 <= i < |bytes| ==> all[i] == bytes[i];
  }

  // ----- records ---------------------------------------------------------------------------

  /** The answer of a whole stream: the first record that says something. */
  function Answer<A>(bytes: seq<Byte>, read: Reader<A>): Option<A>
    decreases |bytes|
  {
    match FindRecordEnd(bytes)
    case None => None
    case Some(end) =>
      var said := read(bytes[..end.at]);
      if said.Some? then said else Answer(bytes[end.at + end.width..], read)
  }

  function Joined(chunks: seq<seq<Byte>>): seq<Byte> {
    if chunks == [] then [] else chunks[0] + Joined(chunks[1..])
  }

  /** One record off the front of what has arrived is one record off the whole stream. */
  lemma AnswerStep<A>(buffer: seq<Byte>, rest: seq<Byte>, read: Reader<A>)
    requires FindRecordEnd(buffer).Some?
    ensures var end := FindRecordEnd(buffer).value;
            var said := read(buffer[..end.at]);
            Answer(buffer + rest, read) ==
              if said.Some? then said else Answer(buffer[end.at + end.width..] + rest, read)
  {
    var end := FindRecordEnd(buffer).value;
    EndIsStable(buffer, rest);
    assert (buffer + rest)[..end.at] == buffer[..end.at];
    assert (buffer + rest)[end.at + end.width..] == buffer[end.at + end.width..] + rest;
  }

  /** What the loop makes of one buffer: the answer, if some record gives one, or the rest. */
  function Drained<A>(buffer: seq<Byte>, read: Reader<A>): (Option<A>, seq<Byte>)
    decreases |buffer|
  {
    match FindRecordEnd(buffer)
    case None => (None, buffer)
    case Some(end) =>
      var said := read(buffer[..end.at]);
      var rest := buffer[end.at + end.width..];
      if said.Some? then (said, rest) else Drained(rest, read)
  }

  /** What it makes of the chunks from then on. */
  function Heard<A>(buffer: seq<Byte>, chunks: seq<seq<Byte>>, read: Reader<A>): Option<A>
    decreases |chunks|
  {
    if chunks == [] then None else
      var (said, rest) := Drained(buffer + chunks[0], read);
      if said.Some? then said else Heard(rest, chunks[1..], read)
  }

  lemma {:induction false} DrainedAnswers<A>(buffer: seq<Byte>, more: seq<Byte>, read: Reader<A>)
    ensures var (said, rest) := Drained(buffer, read);
            && Answer(buffer + more, read) == (if said.Some? then said else Answer(rest + more, read))
            && (said.None? ==> FindRecordEnd(rest).None?)
    decreases |buffer|
  {
    if FindRecordEnd(buffer).Some? {
      var end := FindRecordEnd(buffer).value;
      AnswerStep(buffer, more, read);
      DrainedAnswers(buffer[end.at + end.width..], more, read);
    }
  }

  lemma {:induction false} HeardAnswers<A>(buffer: seq<Byte>, chunks: seq<seq<Byte>>, read: Reader<A>)
    requires FindRecordEnd(buffer).None?
    ensures Heard(buffer, chunks, read) == Answer(buffer + Joined(chunks), read)
    decreases |chunks|
  {
    if chunks == [] {
      assert buffer + [] == buffer;
    } else {
      var (said, rest) := Drained(buffer + chunks[0], read);
      HeardStep(buffer, chunks, read);
      if said.None? { HeardAnswers(rest, chunks[1..], read); }
    }
  }

  lemma HeardStep<A>(buffer: seq<Byte>, chunks: seq<seq<Byte>>, read: Reader<A>)
    requires chunks != []
    ensures var (said, rest) := Drained(buffer + chunks[0], read);
            && Answer(buffer + Joined(chunks), read)
               == (if said.Some? then said else Answer(rest + Joined(chunks[1..]), read))
            && (said.None? ==> FindRecordEnd(rest).None?)
  {
    var more := Joined(chunks[1..]);
    assert buffer + Joined(chunks) == (buffer + chunks[0]) + more;
    hide Answer, Drained, FindRecordEnd, Joined;
    DrainedAnswers(buffer + chunks[0], more, read);
  }

  lemma NothingBuffered<A>(chunks: seq<seq<Byte>>, read: Reader<A>)
    ensures Heard([], chunks, read) == Answer(Joined(chunks), read)
  {
    HeardAnswers([], chunks, read);
    assert [] + Joined(chunks) == Joined(chunks);
  }

  /** However the same bytes are split into chunks, the same is heard. */
  lemma SplitDoesNotMatter<A>(a: seq<seq<Byte>>, b: seq<seq<Byte>>, read: Reader<A>)
    requires Joined(a) == Joined(b)
    ensures Heard([], a, read) == Heard([], b, read)
  {
    NothingBuffered(a, read);
    NothingBuffered(b, read);
  }

  /** Chunk after chunk into a buffer, and complete records out of it. None is a stream that
      closed without an answer. */
  method WaitForSyncHint<A>(chunks: seq<seq<Byte>>, read: Reader<A>) returns (answer: Option<A>)
    ensures answer == Heard([], chunks, read) == Answer(Joined(chunks), read)
  {
    NothingBuffered(chunks, read);
    hide Answer, Joined, FindRecordEnd;
    var buffer: seq<Byte> := [];
    assert chunks[0..] == chunks;
    for i := 0 to |chunks|
      invariant Heard([], chunks, read) == Heard(buffer, chunks[i..], read)
    {
      assert chunks[i..][0] == chunks[i] && chunks[i..][1..] == chunks[i + 1..];
      buffer := buffer + chunks[i];
      var found := FindRecordEnd(buffer);
      while found.Some?
        invariant found == FindRecordEnd(buffer)
        invariant Heard([], chunks, read) ==
                    if Drained(buffer, read).0.Some? then Drained(buffer, read).0
                    else Heard(Drained(buffer, read).1, chunks[i + 1..], read)
        decreases |buffer|
      {
        assert found.value.width in {2, 4};
        var record := buffer[..found.value.at];
        buffer := buffer[found.value.at + found.value.width..];
        var said := read(record);
        if said.Some? { return said; }
        found := FindRecordEnd(buffer);
      }
    }
    answer := None;
  }

  /** A stream that only ends lines with CR, which the standard allows, never ends a record. */
  lemma CarriageReturnsNeverEnd(bytes: seq<Byte>)
    requires forall i :: 0 <= i < |bytes| ==> bytes[i] != LF
    ensures FindRecordEnd(bytes).None?
  {
    FindsTheFirstBlankLine(bytes, End(0, 2));
  }
}
