/** The line framing of the MCP server's stdio loop (workspace-template/a2a_mcp_server.py),
    on decoded characters. */
module StdioFraming {
  import opened Basics
  import opened Regex
  import opened Text

  /** The complete lines at the front of a text, without their newlines, and the rest. */
  function SplitLines(s: string, line: string): (seq<string>, string)
    decreases |s|
  {
    if s == "" then ([], line)
    else if s[0] == '\n' then
      var r := SplitLines(s[1..], "");
      ([line] + r.0, r.1)
    else SplitLines(s[1..], line + [s[0]])
  }

  /** The stripped lines that are not blank: what goes on to the JSON parser. */
  function Requests(u: Unicode, lines: seq<string>): seq<string> {
    if lines == [] then []
    else (if Strip(u, lines[0]) == "" then [] else [Strip(u, lines[0])]) + Requests(u, lines[1..])
  }

  predicate AllBlank(u: Unicode, line: string) {
    forall k :: 0 <= k < |line| ==> IsSpace(u, line[k])
  }

  lemma EmptyIffBlank(u: Unicode, line: string)
    ensures Strip(u, line) == "" <==> AllBlank(u, line)
  {
    var i, j := StripIs(u, line);
  }

  lemma {:induction false} RequestsAre(u: Unicode, lines: seq<string>)
    ensures Requests(u, lines) == FilterMap(lines, (l: string) => !AllBlank(u, l), (l: string) => Strip(u, l))
  {
    if lines != [] {
      EmptyIffBlank(u, lines[0]);
      RequestsAre(u, lines[1..]);
    }
  }

  /** The requests are the lines that are not all blank, in order, without the blanks at
      their ends. */
  lemma RequestsPick(u: Unicode, lines: seq<string>) returns (at: seq<nat>)
    ensures Picks(lines, (l: string) => !AllBlank(u, l), (l: string) => Strip(u, l), at, Requests(u, lines))
  {
    RequestsAre(u, lines);
    at := FilterMapPicks(lines, (l: string) => !AllBlank(u, l), (l: string) => Strip(u, l));
  }

  function WithNewlines(lines: seq<string>): string {
    if lines == [] then "" else lines[0] + "\n" + WithNewlines(lines[1..])
  }

  lemma OneLineMore(s: string, line: string, lines: seq<string>, rest: string)
    requires s != "" && s[0] == '\n' && WithNewlines(lines) + rest == "" + s[1..]
    ensures WithNewlines([line] + lines) + rest == line + s
  {
    assert ([line] + lines)[1..] == lines;
    assert line + "\n" + WithNewlines(lines) + rest == line + "\n" + (WithNewlines(lines) + rest);
    assert line + s == line + "\n" + s[1..];
  }

  /** The lines and the rest are what the text says: glued together they are the text, and
      none of them holds a newline. */
  lemma {:induction false} SplitMeans(s: string, line: string)
    requires '\n' !in line
    ensures var r := SplitLines(s, line);
            && WithNewlines(r.0) + r.1 == line + s
            && '\n' !in r.1 && forall l :: l in r.0 ==> '\n' !in l
    decreases |s|
  {
    if s == "" {
      assert line + s == line;
    } else if s[0] == '\n' {
      SplitMeans(s[1..], "");
      OneLineMore(s, line, SplitLines(s[1..], "").0, SplitLines(s[1..], "").1);
    } else {
      SplitMeans(s[1..], line + [s[0]]);
      assert line + [s[0]] + s[1..] == line + s;
    }
  }

  lemma {:induction false} SplitPrefix(line: string, s: string, start: string)
    requires '\n' !in line
    ensures SplitLines(line + s, start) == SplitLines(s, start + line)
    decreases |line|
  {
    if line == "" {
      assert line + s == s && start + line == start;
    } else {
      assert (line + s)[0] == line[0] && (line + s)[1..] == line[1..] + s;
      SplitPrefix(line[1..], s, start + [line[0]]);
      assert start + [line[0]] + line[1..] == start + line;
    }
  }

  /** Cutting the text anywhere: the first part's lines come first, and its rest leads the
      second part. */
  lemma {:induction false} SplitAppend(a: string, b: string, line: string)
    requires '\n' !in line
    ensures var r, t := SplitLines(a, line), SplitLines(SplitLines(a, line).1 + b, "");
            SplitLines(a + b, line) == (r.0 + t.0, t.1)
    decreases |a|
  {
    if a == "" {
      assert a + b == b;
      SplitPrefix(line, b, "");
      assert "" + line == line;
      assert [] + SplitLines(b, line).0 == SplitLines(b, line).0;
    } else {
      assert (a + b)[0] == a[0] && (a + b)[1..] == a[1..] + b;
      if a[0] == '\n' {
        SplitAppend(a[1..], b, "");
        var r := SplitLines(a[1..], "");
        var t := SplitLines(r.1 + b, "");
        assert [line] + (r.0 + t.0) == [line] + r.0 + t.0;
      } else {
        SplitAppend(a[1..], b, line + [a[0]]);
      }
    }
  }

  lemma {:induction false} RequestsAppend(u: Unicode, a: seq<string>, b: seq<string>)
    ensures Requests(u, a + b) == Requests(u, a) + Requests(u, b)
  {
    if a == [] {
      assert a + b == b;
    } else {
      assert (a + b)[1..] == a[1..] + b;
      RequestsAppend(u, a[1..], b);
    }
  }

  // ---- which lines raise

  datatype Kind = NotJson | Object | OtherValue | Unreadable

  /** What the parser makes of a text: a value, the decode error the loop catches, or another
      exception (too deep a nesting, an integer too long to convert). */
  datatype Verdict = Value | DecodeError | OtherError

  /** What the model leaves open: the parser's verdict, apart from plain integers and the
      three named constants, and whether handling an object raises, which may depend on the
      number of lines handled before. */
  datatype Handler = Handler(parse: string -> Verdict, fails: (nat, string) -> bool)

  /** Longer integers are not converted. */
  const MAX_DIGITS := 4300

  predicate IsInteger(line: string) {
    && 0 < |line| <= MAX_DIGITS && (forall i :: 0 <= i < |line| ==> '0' <= line[i] <= '9')
    && (|line| > 1 ==> line[0] != '0')
  }

  predicate IsPlain(line: string) {
    IsInteger(line) || line == "true" || line == "false" || line == "null"
  }

  /** A text without leading blanks that parses is an object if and only if it begins with
      a brace. */
  function KindOf(h: Handler, line: string): Kind {
    if IsPlain(line) then OtherValue
    else
      match h.parse(line)
      case DecodeError => NotJson
      case OtherError => Unreadable
      case Value => if line != "" && line[0] == '{' then Object else OtherValue
  }

  /** Whatever the handlers do: the parser raises an exception the loop does not catch, or
      the value is not an object, and asking it for its "id" raises. */
  predicate Fatal(k: Kind) {
    k.OtherValue? || k.Unreadable?
  }

  /** A text that is not JSON is skipped. */
  predicate Raises(h: Handler, n: nat, line: string) {
    Fatal(KindOf(h, line)) || (KindOf(h, line).Object? && h.fails(n, line))
  }

  ghost predicate SomeRaises(h: Handler, n: nat, requests: seq<string>) {
    exists i :: 0 <= i < |requests| && Raises(h, n + i, requests[i])
  }

  lemma SomeRaisesStep(h: Handler, n: nat, requests: seq<string>)
    requires requests != []
    ensures SomeRaises(h, n, requests) <==> Raises(h, n, requests[0]) || SomeRaises(h, n + 1, requests[1..])
  {
    if i :| 0 <= i < |requests| && Raises(h, n + i, requests[i]) {
      if i > 0 { assert requests[1..][i - 1] == requests[i] && n + 1 + (i - 1) == n + i; }
    }
    if Raises(h, n, requests[0]) { assert Raises(h, n + 0, requests[0]); }
    if i :| 0 <= i < |requests[1..]| && Raises(h, n + 1 + i, requests[1..][i]) {
      assert Raises(h, n + (i + 1), requests[i + 1]);
    }
  }

  /** The first exception ends the loop; `n` lines were handled before these. */
  function Handled(h: Handler, n: nat, requests: seq<string>): seq<string>
    decreases |requests|
  {
    if requests == [] then []
    else if Raises(h, n, requests[0]) then [requests[0]]
    else [requests[0]] + Handled(h, n + 1, requests[1..])
  }

  /** What is handled is the front of the requests up to the first that raises: all of them
      exactly when none but the last does. */
  lemma {:induction false} HandledMeans(h: Handler, n: nat, requests: seq<string>)
    ensures var m := |Handled(h, n, requests)|;
            && m <= |requests| && Handled(h, n, requests) == requests[..m]
            && (forall i :: 0 <= i < m - 1 ==> !Raises(h, n + i, requests[i]))
            && (m < |requests| ==> m > 0 && Raises(h, n + (m - 1), requests[m - 1]))
    ensures Handled(h, n, requests) == requests <==>
            forall i :: 0 <= i < |requests| - 1 ==> !Raises(h, n + i, requests[i])
    decreases |requests|
  {
    if requests != [] {
      var rest := requests[1..];
      HandledMeans(h, n + 1, rest);
      var m := |Handled(h, n, requests)|;
      if !Raises(h, n, requests[0]) {
        forall i | 0 <= i < m - 1 ensures !Raises(h, n + i, requests[i]) {
          if i > 0 { assert !Raises(h, n + 1 + (i - 1), rest[i - 1]); }
        }
        if m < |requests| { assert Raises(h, n + 1 + (m - 2), rest[m - 2]); }
      } else {
        assert Raises(h, n + 0, requests[0]);
      }
    }
  }

  /** As long as handling objects never raises, all requests are handled if and only if none
      but the last is JSON other than an object or makes the parser raise another exception
      than a decode error. */
  lemma AllHandledIff(h: Handler, n: nat, requests: seq<string>)
    requires forall k, l :: !h.fails(k, l)
    ensures Handled(h, n, requests) == requests <==>
            forall i :: 0 <= i < |requests| - 1 ==> !Fatal(KindOf(h, requests[i]))
  {
    HandledMeans(h, n, requests);
    forall i | 0 <= i < |requests| ensures Raises(h, n + i, requests[i]) <==> Fatal(KindOf(h, requests[i])) {}
  }

  lemma {:induction false} HandledAppend(h: Handler, n: nat, a: seq<string>, b: seq<string>)
    ensures Handled(h, n, a + b) == if SomeRaises(h, n, a) then Handled(h, n, a) else a + Handled(h, n + |a|, b)
    ensures SomeRaises(h, n, a + b) <==> SomeRaises(h, n, a) || SomeRaises(h, n + |a|, b)
    decreases |a|
  {
    if a == [] {
      assert a + b == b;
    } else {
      assert (a + b)[1..] == a[1..] + b && (a + b)[0] == a[0];
      HandledAppend(h, n + 1, a[1..], b);
      SomeRaisesStep(h, n, a);
      SomeRaisesStep(h, n, a + b);
      Associates([a[0]], a[1..], Handled(h, n + |a|, b));
    }
  }

  lemma {:induction false} HandledAll(h: Handler, n: nat, requests: seq<string>)
    requires !SomeRaises(h, n, requests)
    ensures Handled(h, n, requests) == requests
    decreases |requests|
  {
    if requests != [] {
      SomeRaisesStep(h, n, requests);
      HandledAll(h, n + 1, requests[1..]);
    }
  }

  /** What has been dispatched and, while the loop goes on, what waits in the buffer. */
  datatype State = Reading(buffer: string, dispatched: seq<string>) | Ended(dispatched: seq<string>)

  /** The state once every complete line in the buffer is dispatched, or one has raised. */
  ghost function Settled(u: Unicode, h: Handler, buffer: string, dispatched: seq<string>): State {
    var r := SplitLines(buffer, "");
    var requests := Requests(u, r.0);
    if SomeRaises(h, |dispatched|, requests) then Ended(dispatched + Handled(h, |dispatched|, requests))
    else Reading(r.1, dispatched + requests)
  }

  ghost function Fed(u: Unicode, h: Handler, s: State, chunk: string): State {
    match s
    case Ended(_) => s
    case Reading(buffer, dispatched) => Settled(u, h, buffer + chunk, dispatched)
  }

  ghost function AllFed(u: Unicode, h: Handler, s: State, chunks: seq<string>): State
    decreases |chunks|
  {
    if chunks == [] then s else AllFed(u, h, Fed(u, h, s, chunks[0]), chunks[1..])
  }

  /** No complete line waits. */
  ghost predicate Tidy(s: State) {
    s.Reading? ==> '\n' !in s.buffer
  }

  /** Feeding two pieces is feeding both at once. */
  lemma FedTwice(u: Unicode, h: Handler, s: State, a: string, b: string)
    requires Tidy(s)
    ensures Fed(u, h, Fed(u, h, s, a), b) == Fed(u, h, s, a + b) && Tidy(Fed(u, h, s, a))
  {
    if s.Reading? {
      var front := s.buffer + a;
      SplitMeans(front, "");
      SplitAppend(front, b, "");
      assert front + b == s.buffer + (a + b);
      var r := SplitLines(front, "");
      var next := SplitLines(r.1 + b, "").0;
      RequestsAppend(u, r.0, next);
      SettledTwice(h, s.dispatched, Requests(u, r.0), Requests(u, next));
    }
  }

  lemma SettledTwice(h: Handler, done: seq<string>, a: seq<string>, b: seq<string>)
    ensures var n := |done|;
            && (SomeRaises(h, n, a + b) <==> SomeRaises(h, n, a) || SomeRaises(h, |done + a|, b))
            && (SomeRaises(h, n, a) ==> Handled(h, n, a + b) == Handled(h, n, a))
            && (!SomeRaises(h, n, a) ==> done + Handled(h, n, a + b) == done + a + Handled(h, |done + a|, b))
            && done + (a + b) == done + a + b
  {
    HandledAppend(h, |done|, a, b);
    Associates(done, a, b);
    Associates(done, a, Handled(h, |done + a|, b));
  }

  lemma Associates(a: seq<string>, b: seq<string>, c: seq<string>)
    ensures a + (b + c) == a + b + c
  {
  }

  lemma {:induction false} FedTogether(u: Unicode, h: Handler, s: State, chunks: seq<string>)
    requires Tidy(s)
    ensures AllFed(u, h, s, chunks) == Fed(u, h, s, Flatten(chunks))
    decreases |chunks|
  {
    if chunks == [] {
      if s.Reading? {
        NothingSettles(u, h, s.buffer, s.dispatched);
        assert s.buffer + "" == s.buffer;
      }
    } else {
      FedTwice(u, h, s, chunks[0], Flatten(chunks[1..]));
      FedTogether(u, h, Fed(u, h, s, chunks[0]), chunks[1..]);
    }
  }

  /** Chunking does not matter: for every split of a stream of characters the requests
      dispatched are the non-blank complete lines of the whole, in order, up to the first
      whose handling raises; without one the loop goes on, and the rest waits in the
      buffer. */
  lemma ChunkingIsIrrelevant(u: Unicode, h: Handler, chunks: seq<string>)
    ensures var all, end := SplitLines(Flatten(chunks), ""), AllFed(u, h, Reading("", []), chunks);
            var requests := Requests(u, all.0);
            && end.dispatched == Handled(h, 0, requests)
            && (end.Reading? <==> !SomeRaises(h, 0, requests))
            && (end.Reading? ==> end.dispatched == requests && end.buffer == all.1)
            && WithNewlines(all.0) + all.1 == Flatten(chunks)
            && '\n' !in all.1 && forall l :: l in all.0 ==> '\n' !in l
  {
    FedTogether(u, h, Reading("", []), chunks);
    SplitMeans(Flatten(chunks), "");
    assert "" + Flatten(chunks) == Flatten(chunks);
    var requests := Requests(u, SplitLines(Flatten(chunks), "").0);
    assert [] + requests == requests && [] + Handled(h, 0, requests) == Handled(h, 0, requests);
    if !SomeRaises(h, 0, requests) { HandledAll(h, 0, requests); }
  }

  /** A line that is JSON other than an object, or on which the parser raises another exception
      than a decode error, ends the loop, whatever the handlers do: no later line is
      dispatched. */
  lemma NonObjectEndsTheLoop(u: Unicode, h: Handler, chunks: seq<string>, i: nat)
    requires var requests := Requests(u, SplitLines(Flatten(chunks), "").0);
             i < |requests| && Fatal(KindOf(h, requests[i]))
    ensures var end := AllFed(u, h, Reading("", []), chunks);
            end.Ended? && |end.dispatched| <= i + 1
  {
    var requests := Requests(u, SplitLines(Flatten(chunks), "").0);
    ChunkingIsIrrelevant(u, h, chunks);
    HandledMeans(h, 0, requests);
    assert Raises(h, 0 + i, requests[i]);
  }

  /** The concrete case: a number on a line of its own, and the next line is never
      handled. */
  lemma OneBadLineEndsTheLoop(u: Unicode, h: Handler)
    ensures AllFed(u, h, Reading("", []), ["1\n", "{}\n"]) == Ended(["1"])
  {
    StripOne(u);
    assert "" + "1\n" == "1\n" && "1\n"[..1] == "1";
    assert IsInteger("1");
    LineSettles(u, h, "1\n", [], 1);
    EndedStays(u, h, ["1"], ["{}\n"]);
    assert ["1\n", "{}\n"][1..] == ["{}\n"];
  }

  lemma StripOne(u: Unicode)
    ensures Strip(u, "1") == "1"
  {
    var i, j := StripIs(u, "1");
    assert !IsSpace(u, "1"[0]);
  }

  // ---- the code

  method FindNewline(s: string) returns (i: int)
    ensures -1 <= i < |s|
    ensures i < 0 ==> '\n' !in s
    ensures i >= 0 ==> s[i] == '\n' && '\n' !in s[..i]
  {
    for k := 0 to |s|
      invariant '\n' !in s[..k]
    {
      if s[k] == '\n' { return k; }
    }
    return -1;
  }

  /** The chunks up to the end of the input, which reads as an empty one. */
  function Input(chunks: seq<string>): seq<string> {
    if chunks == [] || chunks[0] == "" then [] else [chunks[0]] + Input(chunks[1..])
  }

  class Server {
    var buffer: string
    var dispatched: seq<string>

    constructor ()
      ensures buffer == "" && dispatched == []
    {
      buffer, dispatched := "", [];
    }

    /** The server's state as a value, given whether its loop goes on. */
    ghost predicate Is(reading: bool, s: State)
      reads this
    {
      if reading then s == Reading(buffer, dispatched) else s == Ended(dispatched)
    }

    /** One chunk: append it, then take lines off the buffer while it holds a newline.  The
        result is false if an exception ends the loop. */
    method Feed(u: Unicode, h: Handler, chunk: string) returns (ok: bool)
      modifies this
      ensures Is(ok, Fed(u, h, Reading(old(buffer), old(dispatched)), chunk))
    {
      ghost var result := Fed(u, h, Reading(buffer, dispatched), chunk);
      buffer := buffer + chunk;
      var at := FindNewline(buffer);
      while at >= 0
        invariant -1 <= at < |buffer|
        invariant at < 0 ==> '\n' !in buffer
        invariant at >= 0 ==> buffer[at] == '\n' && '\n' !in buffer[..at]
        invariant Settled(u, h, buffer, dispatched) == result
        decreases |buffer|
      {
        LineSettles(u, h, buffer, dispatched, at);
        var line := Strip(u, buffer[..at]);
        buffer := buffer[at + 1..];
        if line != "" {
          dispatched := dispatched + [line];
          if Raises(h, |dispatched| - 1, line) {
            return false;
          }
        }
        at := FindNewline(buffer);
      }
      NothingSettles(u, h, buffer, dispatched);
      return true;
    }

    /** The reading loop: an empty chunk is the end of the input. */
    method Serve(u: Unicode, h: Handler, chunks: seq<string>) returns (ok: bool)
      modifies this
      ensures Is(ok, AllFed(u, h, Reading(old(buffer), old(dispatched)), Input(chunks)))
    {
      ghost var result := AllFed(u, h, Reading(buffer, dispatched), Input(chunks));
      var n := 0;
      assert chunks[0..] == chunks;
      while n < |chunks| && chunks[n] != ""
        invariant 0 <= n <= |chunks|
        invariant AllFed(u, h, Reading(buffer, dispatched), Input(chunks[n..])) == result
      {
        ghost var before := Reading(buffer, dispatched);
        InputStep(u, h, before, chunks, n);
        ok := Feed(u, h, chunks[n]);
        if !ok {
          EndedStays(u, h, dispatched, Input(chunks[n + 1..]));
          return false;
        }
        n := n + 1;
      }
      return true;
    }
  }

  lemma InputStep(u: Unicode, h: Handler, s: State, chunks: seq<string>, n: nat)
    requires n < |chunks| && chunks[n] != ""
    ensures AllFed(u, h, s, Input(chunks[n..])) ==
            AllFed(u, h, Fed(u, h, s, chunks[n]), Input(chunks[n + 1..]))
  {
    assert chunks[n..][0] == chunks[n] && chunks[n..][1..] == chunks[n + 1..];
    assert Input(chunks[n..])[1..] == Input(chunks[n + 1..]);
  }

  lemma {:induction false} EndedStays(u: Unicode, h: Handler, dispatched: seq<string>, chunks: seq<string>)
    ensures AllFed(u, h, Ended(dispatched), chunks) == Ended(dispatched)
    decreases |chunks|
  {
    if chunks != [] { EndedStays(u, h, dispatched, chunks[1..]); }
  }

  lemma LineTaken(s: string, at: nat)
    requires at < |s| && s[at] == '\n' && '\n' !in s[..at]
    ensures var r := SplitLines(s[at + 1..], "");
            SplitLines(s, "") == ([s[..at]] + r.0, r.1)
  {
    assert s == s[..at] + s[at..];
    SplitPrefix(s[..at], s[at..], "");
    assert "" + s[..at] == s[..at] && s[at..][1..] == s[at + 1..];
  }

  lemma LineSettles(u: Unicode, h: Handler, buffer: string, dispatched: seq<string>, at: nat)
    requires at < |buffer| && buffer[at] == '\n' && '\n' !in buffer[..at]
    ensures var line := Strip(u, buffer[..at]);
            Settled(u, h, buffer, dispatched) ==
            if line == "" then Settled(u, h, buffer[at + 1..], dispatched)
            else if Raises(h, |dispatched|, line) then Ended(dispatched + [line])
            else Settled(u, h, buffer[at + 1..], dispatched + [line])
  {
    var line, rest := Strip(u, buffer[..at]), SplitLines(buffer[at + 1..], "").0;
    LineTaken(buffer, at);
    assert ([buffer[..at]] + rest)[1..] == rest;
    assert Requests(u, [buffer[..at]] + rest) == (if line == "" then [] else [line]) + Requests(u, rest);
    assert [] + Requests(u, rest) == Requests(u, rest);
    if line != "" { FirstHandled(h, dispatched, line, Requests(u, rest)); }
  }

  lemma FirstHandled(h: Handler, done: seq<string>, line: string, rest: seq<string>)
    ensures var n := |done|;
            && (SomeRaises(h, n, [line] + rest) <==> Raises(h, n, line) || SomeRaises(h, n + 1, rest))
            && Handled(h, n, [line] + rest) == (if Raises(h, n, line) then [line] else [line] + Handled(h, n + 1, rest))
            && done + ([line] + rest) == done + [line] + rest
            && done + ([line] + Handled(h, n + 1, rest)) == done + [line] + Handled(h, n + 1, rest)
  {
    assert ([line] + rest)[1..] == rest;
    SomeRaisesStep(h, |done|, [line] + rest);
    Associates(done, [line], rest);
    Associates(done, [line], Handled(h, |done| + 1, rest));
  }

  lemma NothingSettles(u: Unicode, h: Handler, buffer: string, dispatched: seq<string>)
    requires '\n' !in buffer
    ensures Settled(u, h, buffer, dispatched) == Reading(buffer, dispatched)
  {
    SplitPrefix(buffer, "", "");
    assert buffer + "" == buffer && "" + buffer == buffer;
    assert dispatched + [] == dispatched;
  }
}
