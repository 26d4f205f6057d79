/** `requestReadhdrs` (request.c): skip header lines up to and including the first empty one. */
module Headers {
  import opened Memory
  import opened RioReader

  const CRLF: string := "\r\n"

  function FirstLine(stream: string): string
  {
    stream[..LineLength(stream, MAXLINE - 1)]
  }

  function AfterLine(stream: string): string
  {
    stream[LineLength(stream, MAXLINE - 1)..]
  }

  /** Does an empty header line lie ahead, splitting the stream as `rio_readlineb` does? */
  predicate BlankAhead(stream: string)
    decreases |stream|
  {
    stream != [] && (FirstLine(stream) == CRLF || BlankAhead(AfterLine(stream)))
  }

  /** The number of lines up to and including the first empty one. */
  function LinesToBlank(stream: string): (n: nat)
    requires BlankAhead(stream)
    ensures n > 0
    decreases |stream|
  {
    if FirstLine(stream) == CRLF then 1 else 1 + LinesToBlank(AfterLine(stream))
  }

  /** What follows the first empty line. */
  function AfterBlank(stream: string): string
    requires BlankAhead(stream)
    decreases |stream|
  {
    if FirstLine(stream) == CRLF then AfterLine(stream) else AfterBlank(AfterLine(stream))
  }

  /** The stream as a sequence of lines, the way `rio_readlineb` splits it. */
  function Lines(stream: string): seq<string>
    decreases |stream|
  {
    if stream == [] then [] else [FirstLine(stream)] + Lines(AfterLine(stream))
  }

  function JoinLines(lines: seq<string>): string
  {
    if lines == [] then "" else lines[0] + JoinLines(lines[1..])
  }

  /** The first empty line is line number `n`, and `rest` follows it. */
  ghost predicate FirstEmptyIs(lines: seq<string>, n: nat, rest: string)
  {
    && 0 < n <= |lines| && lines[n - 1] == CRLF && CRLF !in lines[..n - 1]
    && rest == JoinLines(lines[n..])
  }

  /** BlankAhead, LinesToBlank and AfterBlank say what they should about the list of lines: there is
      an empty line iff one is among the lines, it is the first such, and what follows it is the rest. */
  lemma {:induction false} BlankIsFirstEmptyLine(stream: string)
    ensures BlankAhead(stream) <==> CRLF in Lines(stream)
    ensures BlankAhead(stream) ==> FirstEmptyIs(Lines(stream), LinesToBlank(stream), AfterBlank(stream))
    decreases |stream|
  {
    if stream != [] {
      var rest := AfterLine(stream);
      BlankIsFirstEmptyLine(rest);
      if FirstLine(stream) == CRLF {
        LinesJoin(rest);
        assert Lines(stream)[1..] == Lines(rest);
      } else if BlankAhead(rest) {
        EmptyLineLater(FirstLine(stream), Lines(rest), LinesToBlank(rest), AfterBlank(rest));
      }
    }
  }

  lemma EmptyLineLater(line: string, lines: seq<string>, n: nat, rest: string)
    requires line != CRLF && FirstEmptyIs(lines, n, rest)
    ensures FirstEmptyIs([line] + lines, n + 1, rest)
  {
    assert ([line] + lines)[..n] == [line] + lines[..n - 1];
    assert ([line] + lines)[n + 1..] == lines[n..];
  }

  lemma {:induction false} LinesJoin(stream: string)
    ensures JoinLines(Lines(stream)) == stream
    decreases |stream|
  {
    if stream != [] {
      LinesJoin(AfterLine(stream));
      assert Lines(stream)[1..] == Lines(AfterLine(stream));
    }
  }

  /** `strcmp(buf, "\r\n") == 0` */
  predicate IsCrlf(buf: string)
  {
    |buf| > 2 && buf[0] == '\r' && buf[1] == '\n' && buf[2] == NUL
  }

  /** A stored line starts with "\r\n" only if that is the whole line. */
  lemma CrlfEndsTheLine(stream: string)
    requires LineLength(stream, MAXLINE - 1) >= 2 && stream[1] == '\n'
    ensures LineLength(stream, MAXLINE - 1) == 2
  {
    LineIsShortest(stream, MAXLINE - 1);
    assert StopsAt(stream, MAXLINE - 1, 2);
  }

  /** After a line has been stored the C comparison decides whether that line is empty. */
  lemma ComparisonDecides(stream: string, stored: string)
    requires |stored| == MAXLINE && stream != []
    requires var n := LineLength(stream, MAXLINE - 1); stored[..n] == stream[..n] && stored[n] == NUL
    ensures IsCrlf(stored) <==> FirstLine(stream) == CRLF
  {
    var n := LineLength(stream, MAXLINE - 1);
    assert forall i | 0 <= i < n :: stored[i] == stored[..n][i] == stream[i];
    if n >= 2 && stream[1] == '\n' {
      CrlfEndsTheLine(stream);
    }
  }

  // ---------------------------------------------------------------- the loop on values

  /** What the loop sees between two rounds: does `buf` hold an empty line, and what is left to read. */
  datatype Progress = Progress(blank: bool, rest: string)

  /** One call of `Rio_readlineb`: at end of file `buf` stays as it is. */
  function Round(p: Progress): Progress
  {
    if p.rest == [] then p else Progress(FirstLine(p.rest) == CRLF, AfterLine(p.rest))
  }

  /** After `n` calls. The first is made before the test; the loop makes no more once `buf` holds an
      empty line. `garbage` tells whether the uninitialised buffer happens to hold one. */
  function Rounds(stream: string, garbage: bool, n: nat): Progress
  {
    if n == 0 then Progress(garbage, stream)
    else
      var p := Rounds(stream, garbage, n - 1);
      if n > 1 && p.blank then p else Round(p)
  }

  /** Does the loop end? */
  predicate LoopEnds(stream: string, garbage: bool)
  {
    if stream == [] then garbage else BlankAhead(stream)
  }

  lemma {:induction false} NothingLeft(garbage: bool, n: nat)
    ensures Rounds([], garbage, n) == Progress(garbage, [])
  {
    if n > 0 {
      NothingLeft(garbage, n - 1);
    }
  }

  /** The loop seen from its first line: it stops there, or goes on as if it had started after it. */
  lemma {:induction false} RoundsFromFront(stream: string, garbage: bool, n: nat)
    requires stream != []
    ensures FirstLine(stream) == CRLF ==> Rounds(stream, garbage, n + 1) == Progress(true, AfterLine(stream))
    ensures FirstLine(stream) != CRLF ==> Rounds(stream, garbage, n + 1) == Rounds(AfterLine(stream), false, n)
  {
    if n > 0 {
      RoundsFromFront(stream, garbage, n - 1);
    }
  }

  /** After `n` calls the loop has ended iff an empty line is among the first `n` lines, and then it has
      consumed exactly the lines through it. */
  lemma {:induction false} RoundsReachBlank(stream: string, garbage: bool, n: nat)
    requires n > 0 && stream != []
    ensures Rounds(stream, garbage, n).blank <==> BlankAhead(stream) && LinesToBlank(stream) <= n
    ensures Rounds(stream, garbage, n).blank ==> Rounds(stream, garbage, n).rest == AfterBlank(stream)
    decreases n
  {
    var rest := AfterLine(stream);
    RoundsFromFront(stream, garbage, n - 1);
    if FirstLine(stream) != CRLF {
      if rest == [] {
        NothingLeft(false, n - 1);
      } else if n > 1 {
        RoundsReachBlank(rest, false, n - 1);
      }
    }
  }

  /** The loop ends, after however many rounds, exactly when an empty line is still to come (with
      nothing to come at all: when the uninitialised buffer happens to hold one). */
  lemma EndsExactlyWhenBlankAhead(stream: string, garbage: bool)
    ensures (exists n :: n > 0 && Rounds(stream, garbage, n).blank) <==> LoopEnds(stream, garbage)
  {
    if stream == [] {
      forall n: nat ensures Rounds(stream, garbage, n).blank == garbage { NothingLeft(garbage, n); }
      if garbage {
        assert Rounds(stream, garbage, 1).blank;
      }
    } else {
      forall n: nat | n > 0
        ensures Rounds(stream, garbage, n).blank <==> BlankAhead(stream) && LinesToBlank(stream) <= n
      {
        RoundsReachBlank(stream, garbage, n);
      }
      if BlankAhead(stream) {
        assert Rounds(stream, garbage, LinesToBlank(stream)).blank;
      }
    }
  }

  /** A header that stops after one letter keeps the loop going for ever. */
  lemma UnfinishedHeaderNeverEnds(n: nat)
    requires n > 0
    ensures !BlankAhead("x") && !Rounds("x", false, n).blank
  {
    assert FirstLine("x") == "x" && AfterLine("x") == "";
    RoundsReachBlank("x", false, n);
  }

  // ---------------------------------------------------------------- the loop on the reader

  /** The loop, cut off after `rounds` repetitions because it need not end: at end of file `buf` stays
      as it is and the loop in the source repeats for ever. `buf` starts out uninitialised. What the
      loop has seen is what `Rounds` says of the plain stream. */
  method ReadHeaders(r: Rio, buf: array<char>, rounds: nat) returns (ended: bool, failed: bool)
    requires r.Valid() && buf.Length == MAXLINE && buf != r.buf
    modifies r, r.buf, r.fd, buf
    ensures r.Valid()
    ensures Failures(old(r.fd.plan)) == Failures(r.fd.plan) + if failed then 1 else 0
    ensures Reliable(old(r.fd.plan)) ==> !failed
    ensures !failed ==> Progress(ended, r.stream) == Rounds(old(r.stream), IsCrlf(old(buf[..])), rounds + 1)
    ensures !failed && old(r.stream) != [] ==>
              (ended <==> BlankAhead(old(r.stream)) && LinesToBlank(old(r.stream)) <= rounds + 1)
    ensures !failed && ended && old(r.stream) != [] ==> r.stream == AfterBlank(old(r.stream))
  {
    ghost var all := r.stream;
    ghost var garbage := IsCrlf(buf[..]);
    failed := false;
    var blank, error := ReadOneHeader(r, buf);
    if error {
      return false, true;
    }
    var round := 0;
    while !blank && round < rounds
      invariant 0 <= round <= rounds && r.Valid() && (Reliable(old(r.fd.plan)) ==> Reliable(r.fd.plan))
      invariant blank == IsCrlf(buf[..])
      invariant Failures(old(r.fd.plan)) == Failures(r.fd.plan)
      invariant Progress(blank, r.stream) == Rounds(all, garbage, round + 1)
    {
      blank, error := ReadOneHeader(r, buf);
      if error {
        return false, true;
      }
      round := round + 1;
    }
    ended := blank;
    if ended {
      EndedStays(all, garbage, round + 1, rounds + 1);
    }
    if all != [] {
      RoundsReachBlank(all, garbage, rounds + 1);
    }
  }

  lemma {:induction false} EndedStays(stream: string, garbage: bool, n: nat, m: nat)
    requires 0 < n <= m && Rounds(stream, garbage, n).blank
    ensures Rounds(stream, garbage, m) == Rounds(stream, garbage, n)
    decreases m
  {
    if n < m {
      EndedStays(stream, garbage, n, m - 1);
    }
  }

  /** One `Rio_readlineb` of the loop, and the comparison that follows it. */
  method ReadOneHeader(r: Rio, buf: array<char>) returns (blank: bool, error: bool)
    requires r.Valid() && buf.Length == MAXLINE && buf != r.buf
    modifies r, r.buf, r.fd, buf
    ensures r.Valid()
    ensures Failures(old(r.fd.plan)) == Failures(r.fd.plan) + if error then 1 else 0
    ensures Reliable(old(r.fd.plan)) ==> !error && Reliable(r.fd.plan)
    ensures blank == IsCrlf(buf[..])
    ensures !error ==> Progress(blank, r.stream) == Round(Progress(IsCrlf(old(buf[..])), old(r.stream)))
  {
    ghost var all := r.stream;
    var rc := r.ReadLine(buf, MAXLINE);
    error := rc < 0;
    blank := buf[0] == '\r' && buf[1] == '\n' && buf[2] == NUL;
    if rc > 0 && all != [] {
      ComparisonDecides(all, buf[..]);
    }
  }
}
