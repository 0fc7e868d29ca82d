/**
 * Line splitting as JavaScript's `s.split('\n')` does it, the inverse
 * "newline-terminated join", and flattening of a sequence of sequences.
 *
 * Split always yields at least one segment; the last segment is the text after
 * the final newline (possibly empty). `CompleteLines` drops that last segment:
 * it is what a line-reassembly buffer may process, the rest being kept back.
 */
module Lines {

  lemma AppendAssoc<T>(a: seq<T>, b: seq<T>, c: seq<T>)
    ensures a + b + c == a + (b + c)
  {
  }

  /** Concatenation of a sequence of sequences, in order. */
  function Flatten<T>(ss: seq<seq<T>>): seq<T>
  {
    if ss == [] then [] else ss[0] + Flatten(ss[1..])
  }

  lemma {:induction false} FlattenAppend<T>(a: seq<seq<T>>, b: seq<seq<T>>)
    ensures Flatten(a + b) == Flatten(a) + Flatten(b)
  {
    if a == [] {
      assert a + b == b;
    } else {
      assert (a + b)[1..] == a[1..] + b;
      FlattenAppend(a[1..], b);
    }
  }

  /** One more element of a prefix adds its contents at the end. */
  lemma FlattenPrefix<T>(ss: seq<seq<T>>, i: nat)
    requires i < |ss|
    ensures Flatten(ss[..i + 1]) == Flatten(ss[..i]) + ss[i]
  {
    assert ss[..i + 1] == ss[..i] + [ss[i]];
    FlattenAppend(ss[..i], [ss[i]]);
    assert Flatten([ss[i]]) == ss[i] + Flatten([ss[i]][1..]);
  }

  /** JavaScript `s.split('\n')`: the maximal newline-free segments, in order. */
  function Split(s: string): (r: seq<string>)
    ensures |r| >= 1
    decreases |s|
  {
    if s == [] then [""]
    else
      var rest := Split(s[1..]);
      if s[0] == '\n' then [""] + rest
      else [[s[0]] + rest[0]] + rest[1..]
  }

  predicate NoNewline(s: string)
  {
    '\n' !in s
  }

  predicate AllNoNewline(ls: seq<string>)
  {
    forall i :: 0 <= i < |ls| ==> NoNewline(ls[i])
  }

  /** Each line followed by a newline: `l0 + "\n" + l1 + "\n" + ...`. */
  function Terminated(ls: seq<string>): string
  {
    if ls == [] then "" else ls[0] + "\n" + Terminated(ls[1..])
  }

  lemma {:induction false} TerminatedAppend(a: seq<string>, b: seq<string>)
    ensures Terminated(a + b) == Terminated(a) + Terminated(b)
  {
    if a == [] {
      assert a + b == b;
    } else {
      assert (a + b)[1..] == a[1..] + b;
      TerminatedAppend(a[1..], b);
    }
  }

  /** The lines `split` yields before the last (incomplete) segment. */
  function CompleteLines(s: string): (r: seq<string>)
  {
    var parts := Split(s);
    parts[..|parts| - 1]
  }

  /** The trailing segment after the last newline. */
  function Remainder(s: string): (r: string)
  {
    var parts := Split(s);
    parts[|parts| - 1]
  }

  lemma {:induction false} SplitNoNewline(s: string)
    requires NoNewline(s)
    ensures Split(s) == [s]
    decreases |s|
  {
    if s != [] {
      SplitNoNewline(s[1..]);
      assert [s[0]] + s[1..] == s;
    }
  }

  lemma {:induction false} SplitLine(l: string, rest: string)
    requires NoNewline(l)
    ensures Split(l + "\n" + rest) == [l] + Split(rest)
    decreases |l|
  {
    if l == [] {
      assert l + "\n" + rest == "\n" + rest;
      assert ("\n" + rest)[1..] == rest;
    } else {
      var s := l + "\n" + rest;
      assert s[1..] == l[1..] + "\n" + rest;
      SplitLine(l[1..], rest);
      assert [l[0]] + l[1..] == l;
    }
  }

  /**
   * Splitting is determined by its pieces: newline-free lines, each terminated,
   * followed by a newline-free tail, split back into exactly those lines and
   * that tail.
   */
  lemma {:induction false} SplitTerminated(ls: seq<string>, tail: string)
    requires AllNoNewline(ls) && NoNewline(tail)
    ensures Split(Terminated(ls) + tail) == ls + [tail]
    ensures CompleteLines(Terminated(ls) + tail) == ls
    ensures Remainder(Terminated(ls) + tail) == tail
  {
    if ls == [] {
      assert Terminated(ls) + tail == tail;
      SplitNoNewline(tail);
    } else {
      assert Terminated(ls) + tail == ls[0] + "\n" + (Terminated(ls[1..]) + tail);
      SplitLine(ls[0], Terminated(ls[1..]) + tail);
      SplitTerminated(ls[1..], tail);
      assert ls == [ls[0]] + ls[1..];
    }
    var parts := Split(Terminated(ls) + tail);
    assert parts[..|parts| - 1] == ls;
  }

  /** JavaScript `parts.join('\n')` for a non-empty array of parts. */
  function Join(parts: seq<string>): string
    requires |parts| >= 1
  {
    if |parts| == 1 then parts[0] else parts[0] + "\n" + Join(parts[1..])
  }

  lemma {:induction false} JoinIsTerminated(parts: seq<string>)
    requires |parts| >= 1
    ensures Join(parts) == Terminated(parts[..|parts| - 1]) + parts[|parts| - 1]
  {
    if |parts| > 1 {
      JoinIsTerminated(parts[1..]);
      assert parts[..|parts| - 1] == [parts[0]] + parts[1..][..|parts| - 2];
    }
  }

  lemma {:induction false} SplitPiecesNoNewline(s: string)
    ensures AllNoNewline(Split(s))
    decreases |s|
  {
    if s != [] {
      SplitPiecesNoNewline(s[1..]);
    }
  }

  lemma {:induction false} JoinSplit(s: string)
    ensures Join(Split(s)) == s
    decreases |s|
  {
    if s != [] {
      JoinSplit(s[1..]);
      var rest := Split(s[1..]);
      if s[0] == '\n' {
        assert Join([""] + rest) == "\n" + Join(rest);
      } else if |rest| == 1 {
        assert Join([[s[0]] + rest[0]]) == [s[0]] + Join(rest);
      } else {
        assert Join([[s[0]] + rest[0]] + rest[1..]) == [s[0]] + rest[0] + "\n" + Join(rest[1..]);
      }
      assert s == [s[0]] + s[1..];
    }
  }

  /**
   * The other direction: every segment `split` yields is newline-free, and
   * terminating all but the last and appending the last gives back the input.
   */
  lemma SplitJoin(s: string)
    ensures AllNoNewline(Split(s))
    ensures Terminated(CompleteLines(s)) + Remainder(s) == s
  {
    SplitPiecesNoNewline(s);
    JoinSplit(s);
    JoinIsTerminated(Split(s));
  }

  /** The part of the input that `split` leaves unterminated has no newline. */
  lemma RemainderNoNewline(s: string)
    ensures NoNewline(Remainder(s))
    ensures AllNoNewline(CompleteLines(s))
  {
    SplitJoin(s);
  }

  /**
   * Appending to a newline-free buffer and splitting again: the complete
   * lines of the whole accumulated text are the earlier ones followed by the
   * new ones, and the new remainder is the remainder of the whole text.
   */
  lemma Reassemble(done: seq<string>, buffer: string, chunk: string)
    requires AllNoNewline(done) && NoNewline(buffer)
    ensures CompleteLines(Terminated(done) + buffer + chunk)
         == done + CompleteLines(buffer + chunk)
    ensures Remainder(Terminated(done) + buffer + chunk) == Remainder(buffer + chunk)
  {
    var s := buffer + chunk;
    SplitJoin(s);
    var ls := CompleteLines(s);
    assert Terminated(done) + buffer + chunk == Terminated(done) + s;
    TerminatedAppend(done, ls);
    assert Terminated(done) + s == Terminated(done + ls) + Remainder(s);
    assert AllNoNewline(done + ls);
    SplitTerminated(done + ls, Remainder(s));
  }

  /**
   * One read of a line-reassembly buffer: appending `chunk` to the buffer
   * and keeping only the remainder after splitting extends the processed
   * lines by the new complete lines, and the invariant "processed lines,
   * each terminated, then the buffer, is everything read" is kept.
   */
  lemma AppendChunk(done: seq<string>, buffer: string, chunk: string)
    requires AllNoNewline(done) && NoNewline(buffer)
    ensures NoNewline(Remainder(buffer + chunk))
    ensures AllNoNewline(done + CompleteLines(buffer + chunk))
    ensures Terminated(done + CompleteLines(buffer + chunk)) + Remainder(buffer + chunk)
         == Terminated(done) + buffer + chunk
  {
    var s := buffer + chunk;
    var complete := CompleteLines(s);
    SplitJoin(s);
    TerminatedAppend(done, complete);
    var all := done + complete;
    forall i | 0 <= i < |all|
      ensures NoNewline(all[i])
    {
      if i < |done| {
        assert all[i] == done[i];
      } else {
        assert all[i] == complete[i - |done|];
      }
    }
    calc {
      Terminated(all) + Remainder(s);
      Terminated(done) + Terminated(complete) + Remainder(s);
      Terminated(done) + (Terminated(complete) + Remainder(s));
      Terminated(done) + s;
    }
  }
}
