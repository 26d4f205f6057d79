/** What a connection brings, what it can turn out to be, and the front of `requestHandle` (request.c): the
    request line, its method, and the header lines of a GET. */
module RequestLine {
  import opened Memory
  import opened RioReader
  import opened Headers

  /** What the client asked for and what the file system said: the inputs that decide the branch.
      `Static` carries the file size; an empty file passes the checks and fails only when served. */
  datatype Outcome = NoLine | NotFound | Forbidden | Static(size: nat) | Dynamic | Post | Unsupported

  predicate IsLogged(o: Outcome)
  {
    o.Static? || o.Dynamic?
  }

  predicate IsEmptyFile(o: Outcome)
  {
    o.Static? && o.size == 0
  }

  /** Requests answered by requestError. */
  predicate IsError(o: Outcome)
  {
    o.NotFound? || o.Forbidden? || o.Unsupported? || IsEmptyFile(o)
  }

  /** Is this a GET? Then the header lines are read before anything else is looked at. */
  predicate IsGet(o: Outcome)
  {
    o.NotFound? || o.Forbidden? || o.Static? || o.Dynamic?
  }

  // ---------------------------------------------------------------- the request line

  /** White space of `sscanf`. */
  predicate IsSpace(c: char)
  {
    c == ' ' || '\t' <= c <= '\r'
  }

  /** The first token of a C string: what `sscanf(buf, "%s ...")` stores as the method. */
  function FirstToken(line: string): string
  {
    if line == "" || line[0] == NUL then ""
    else if IsSpace(line[0]) then FirstToken(line[1..])
    else TokenFrom(line)
  }

  function TokenFrom(line: string): string
  {
    if line == "" || line[0] == NUL || IsSpace(line[0]) then "" else [line[0]] + TokenFrom(line[1..])
  }

  function Lower(c: char): char
  {
    if 'A' <= c <= 'Z' then c - 'A' + 'a' else c
  }

  /** `strcasecmp(a, b) == 0` */
  predicate EqualIgnoringCase(a: string, b: string)
  {
    |a| == |b| && forall i | 0 <= i < |a| :: Lower(a[i]) == Lower(b[i])
  }

  /** What a connection brings: the bytes that arrive before end of file, and whether the uninitialised
      buffer of the header loop happens to hold an empty line when its request is handled. */
  datatype Input = Input(stream: string, garbage: bool)
  {
    predicate Get()
    {
      EqualIgnoringCase(FirstToken(FirstLine(stream)), "GET")
    }

    predicate Post()
    {
      EqualIgnoringCase(FirstToken(FirstLine(stream)), "POST")
    }

    /** The method decides which outcomes are possible; file system and file decide among them. */
    predicate Allows(o: Outcome)
    {
      if stream == [] then o.NoLine?
      else if Get() then IsGet(o)
      else if Post() then o.Post?
      else o.Unsupported?
    }

    /** Does the header loop come to an end? */
    predicate HeaderEnds()
    {
      LoopEnds(AfterLine(stream), garbage)
    }

    /** A request that is never finished: its header loop goes on for ever. */
    predicate Endless()
    {
      stream != [] && Get() && !HeaderEnds()
    }
  }

  // ---------------------------------------------------------------- what the first token is

  /** Blank, tab, newline, vertical tab, form feed, carriage return. */
  const WHITE: string := " \t\n\U{0B}\U{0C}\r"

  predicate AllWhite(s: string)
  {
    forall c | c in s :: c in WHITE
  }

  /** A word: no white space and no NUL in it. */
  predicate IsWord(s: string)
  {
    forall c | c in s :: c !in WHITE && c != NUL
  }

  /** Does a word that is followed by `rest` end there? */
  predicate Stops(rest: string)
  {
    rest == "" || rest[0] == NUL || rest[0] in WHITE
  }

  lemma SpaceIsWhite(c: char)
    ensures IsSpace(c) <==> c in WHITE
  {
  }

  lemma {:induction false} TokenIsWord(word: string, rest: string)
    requires IsWord(word) && Stops(rest)
    ensures TokenFrom(word + rest) == word
  {
    if word == "" {
      assert "" + rest == rest;
      if rest != "" {
        SpaceIsWhite(rest[0]);
      }
    } else {
      SpaceIsWhite(word[0]);
      assert word[0] in word;
      TokenIsWord(word[1..], rest);
      assert (word + rest)[1..] == word[1..] + rest;
    }
  }

  /** White space is skipped, and the token is the whole word that follows. */
  lemma {:induction false} FirstTokenIsFirstWord(pad: string, word: string, rest: string)
    requires AllWhite(pad) && IsWord(word) && word != "" && Stops(rest)
    ensures FirstToken(pad + word + rest) == word
  {
    var line := pad + word + rest;
    SpaceIsWhite(line[0]);
    if pad == "" {
      assert line == word + rest && word[0] in word;
      TokenIsWord(word, rest);
    } else {
      assert pad[0] in pad;
      FirstTokenIsFirstWord(pad[1..], word, rest);
      assert line[1..] == pad[1..] + word + rest;
    }
  }

  /** What follows the end of a C string does not matter. */
  lemma {:induction false} TokenIgnoresRest(line: string, rest: string)
    requires rest != "" && rest[0] == NUL
    ensures TokenFrom(line + rest) == TokenFrom(line)
  {
    if line == "" {
      assert "" + rest == rest;
    } else {
      assert (line + rest)[1..] == line[1..] + rest;
      TokenIgnoresRest(line[1..], rest);
    }
  }

  lemma {:induction false} FirstTokenIgnoresRest(line: string, rest: string)
    requires rest != "" && rest[0] == NUL
    ensures FirstToken(line + rest) == FirstToken(line)
  {
    if line == "" {
      assert "" + rest == rest;
    } else {
      assert (line + rest)[1..] == line[1..] + rest;
      FirstTokenIgnoresRest(line[1..], rest);
      TokenIgnoresRest(line, rest);
    }
  }

  // ---------------------------------------------------------------- what the method decides

  predicate SpellsGet(word: string)
  {
    |word| == 3 && word[0] in "Gg" && word[1] in "Ee" && word[2] in "Tt"
  }

  predicate SpellsPost(word: string)
  {
    |word| == 4 && word[0] in "Pp" && word[1] in "Oo" && word[2] in "Ss" && word[3] in "Tt"
  }

  lemma CaseIsIgnored(word: string)
    ensures EqualIgnoringCase(word, "GET") <==> SpellsGet(word)
    ensures EqualIgnoringCase(word, "POST") <==> SpellsPost(word)
  {
  }

  /** The first word of the request line, whatever its case, decides: a GET ends as one of the four outcomes
      of a GET, a POST is answered with the log, every other method is unsupported. */
  lemma MethodDecides(i: Input, pad: string, word: string, rest: string, o: Outcome)
    requires i.stream != [] && FirstLine(i.stream) == pad + word + rest
    requires AllWhite(pad) && IsWord(word) && word != "" && Stops(rest)
    ensures i.Get() <==> SpellsGet(word)
    ensures i.Post() <==> SpellsPost(word)
    ensures i.Allows(o) <==>
              if SpellsGet(word) then o.NotFound? || o.Forbidden? || o.Static? || o.Dynamic?
              else if SpellsPost(word) then o.Post?
              else o.Unsupported?
  {
    FirstTokenIsFirstWord(pad, word, rest);
    CaseIsIgnored(word);
  }

  /** A stream that starts with a word and a blank: that word is the method. */
  lemma PlainRequestLine(i: Input, word: string, o: Outcome)
    requires IsWord(word) && word != "" && |word| < MAXLINE - 1
    requires word + " " <= i.stream
    ensures i.Get() <==> SpellsGet(word)
    ensures i.Post() <==> SpellsPost(word)
    ensures i.Allows(o) <==>
              if SpellsGet(word) then o.NotFound? || o.Forbidden? || o.Static? || o.Dynamic?
              else if SpellsPost(word) then o.Post?
              else o.Unsupported?
  {
    var start, line := word + " ", FirstLine(i.stream);
    forall n | 0 <= n < |start| ensures i.stream[n] != '\n' {
      assert i.stream[n] == start[n];
      assert n < |word| ==> word[n] in word;
    }
    LineGoesOn(i.stream, MAXLINE - 1, |start|);
    assert line == "" + word + line[|word|..];
    MethodDecides(i, "", word, line[|word|..], o);
  }

  // ---------------------------------------------------------------- which headers end

  /** `rest` is what follows the request line. */
  ghost predicate FollowsLine(i: Input, rest: string)
  {
    rest == i.stream[LineLength(i.stream, MAXLINE - 1)..]
  }

  /** The header of a request ends iff some number of rounds of the header loop, started after the request
      line, ends it. */
  lemma HeaderEndsMeans(i: Input, rest: string)
    requires FollowsLine(i, rest)
    ensures i.HeaderEnds() <==> exists n :: n > 0 && Rounds(rest, i.garbage, n).blank
  {
    EndsExactlyWhenBlankAhead(rest, i.garbage);
  }

  /** That is, unless nothing follows the request line, iff an empty line follows it. */
  lemma HeaderEndsAtEmptyLine(i: Input)
    requires |Lines(i.stream)| > 1
    ensures i.HeaderEnds() <==> CRLF in Lines(i.stream)[1..]
  {
    var rest := AfterLine(i.stream);
    BlankIsFirstEmptyLine(rest);
    assert Lines(i.stream)[1..] == Lines(rest);
  }

  /** Which requests never end, by what they bring. */
  lemma EndlessMeans(i: Input, rest: string)
    requires FollowsLine(i, rest)
    ensures i.Endless() <==>
              && i.stream != [] && SpellsGet(FirstToken(FirstLine(i.stream)))
              && forall n | n > 0 :: !Rounds(rest, i.garbage, n).blank
  {
    HeaderEndsMeans(i, rest);
    CaseIsIgnored(FirstToken(FirstLine(i.stream)));
  }

  /** A GET whose header stops in the middle of a line is endless. */
  lemma UnfinishedGetIsEndless()
    ensures Input("GET\nx", false).Endless()
  {
    var stream := "GET\nx";
    LineEnds(stream, MAXLINE, 4);
    assert FirstLine(stream) == "GET\n" && AfterLine(stream) == "x";
    assert FirstToken("GET\n") == "GET" by {
      assert "GET\n"[1..] == "ET\n" && "ET\n"[1..] == "T\n" && "T\n"[1..] == "\n";
    }
    UnfinishedHeaderNeverEnds(1);
  }

  /** A GET without header lines comes to an end. */
  lemma ShortestGetEnds()
    ensures Input("GET /\n\r\n", false).Get() && !Input("GET /\n\r\n", false).Endless()
  {
    var stream := "GET /\n\r\n";
    LineEnds(stream, MAXLINE, 6);
    assert AfterLine(stream) == "\r\n";
    LineEnds("\r\n", MAXLINE, 2);
    assert FirstLine("\r\n") == CRLF;
    PlainRequestLine(Input(stream, false), "GET", NotFound);
  }

  // ---------------------------------------------------------------- on the reader

  /** The front of requestHandle on a new reader: the request line, its method, and for a GET the header
      loop, cut off after `rounds` repetitions. `header` is the uninitialised buffer of that loop. */
  method ReadRequest(fd: Descriptor, header: array<char>, rounds: nat)
    returns (n: int, word: string, ended: bool, failed: bool)
    requires header.Length == MAXLINE
    modifies fd, header
    ensures Failures(old(fd.plan)) == Failures(fd.plan) + if failed then 1 else 0
    ensures Reliable(old(fd.plan)) ==> !failed
    ensures !failed ==> (n <= 0 <==> old(fd.pending) == [])
    ensures !failed && n > 0 ==> word == FirstToken(FirstLine(old(fd.pending)))
    ensures var i := Input(old(fd.pending), IsCrlf(old(header[..])));
            !failed && n > 0 && i.Get() ==>
              && ended == Rounds(AfterLine(i.stream), i.garbage, rounds + 1).blank
              && (ended ==> i.HeaderEnds())
              && (i.HeaderEnds() && |AfterLine(i.stream)| <= rounds ==> ended)
  {
    ghost var i := Input(fd.pending, IsCrlf(header[..]));
    word, ended, failed := "", false, false;
    var rio := new Rio(fd);
    var line := new char[MAXLINE];
    n := rio.ReadLine(line, MAXLINE);
    if n < 0 {
      failed := true;
      return;
    }
    if n == 0 {
      return;
    }
    word := FirstToken(line[..]);
    LineIsCString(i.stream, line[..]);
    if EqualIgnoringCase(word, "GET") {
      ended, failed := ReadHeaders(rio, header, rounds);
      if !failed {
        EnoughRounds(AfterLine(i.stream), i.garbage, rounds);
      }
    }
  }

  lemma LineIsCString(stream: string, stored: string)
    requires |stored| == MAXLINE
    requires var n := LineLength(stream, MAXLINE - 1); stored[..n] == stream[..n] && stored[n] == NUL
    ensures FirstToken(stored) == FirstToken(FirstLine(stream))
  {
    var n := LineLength(stream, MAXLINE - 1);
    assert stored == stored[..n] + stored[n..];
    FirstTokenIgnoresRest(stored[..n], stored[n..]);
  }

  lemma {:induction false} LinesAreFew(stream: string)
    requires BlankAhead(stream)
    ensures LinesToBlank(stream) <= |stream|
    decreases |stream|
  {
    if FirstLine(stream) != CRLF {
      LinesAreFew(AfterLine(stream));
    }
  }

  /** A loop that ends does so within as many rounds as there are bytes. */
  lemma EnoughRounds(stream: string, garbage: bool, rounds: nat)
    ensures Rounds(stream, garbage, rounds + 1).blank ==> LoopEnds(stream, garbage)
    ensures LoopEnds(stream, garbage) && |stream| <= rounds ==> Rounds(stream, garbage, rounds + 1).blank
  {
    EndsExactlyWhenBlankAhead(stream, garbage);
    if stream == [] {
      NothingLeft(garbage, rounds + 1);
    } else {
      RoundsReachBlank(stream, garbage, rounds + 1);
      if BlankAhead(stream) {
        LinesAreFew(stream);
      }
    }
  }
}
