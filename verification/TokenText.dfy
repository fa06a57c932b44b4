/** The parameters that can be found after a line is tokenised, told from the line itself, for every line: ill-formed
    quotations, backslashes anywhere, and bytes that look like the mark of an empty parameter.
 */
module TokenText {
  import opened Tokenizer
  import opened TokenCount

  /** A parameter ends; one that begins with the mark of an empty one loses it. */
  function Ends(text: seq<Byte>): seq<seq<Byte>> {
    if text == [] then [] else [if text[0] == 0xFF then text[1..] else text]
  }

  /** The parameters of the rest of a line, with `text` already read of the one that is open. Inside quotes only
      a quote ends it; outside, a space ends it and a quote ends it and opens another, but two quotes between
      parameters are an empty one. A backslash keeps the byte after it, and is nothing at the end of the line.
      */
  function Found(s: seq<Byte>, m: Mode, text: seq<Byte>): seq<seq<Byte>>
    decreases |s|
  {
    if s == [] then Ends(text)
    else if m == Owed || m == Begun(true) then
      if s[0] == 0x22 then Ends(text) + Found(s[1..], Between, [])
      else if s[0] != 0x5C then Found(s[1..], Begun(true), text + [s[0]])
      else if |s| == 1 then Ends(text)
      else Found(s[2..], Begun(true), text + [s[1]])
    else if s[0] == 0x20 then Ends(text) + Found(s[1..], Between, [])
    else if s[0] == 0x22 then
      if m == Between && 1 < |s| && s[1] == 0x22 then [[]] + Found(s[2..], Spent, [])
      else Ends(text) + Found(s[1..], Owed, [])
    else if s[0] != 0x5C then Found(s[1..], Begun(false), text + [s[0]])
    else if |s| == 1 then Ends(text)
    else Found(s[2..], Begun(false), text + [s[1]])
  }

  /** The text read so far is that of an open parameter. */
  predicate Open(m: Mode, text: seq<Byte>) {
    0 !in text && (!m.Begun? ==> text == [])
  }

  lemma EndParams(text: seq<Byte>, out: seq<Byte>)
    requires 0 !in text && (out == [] || out[0] == 0)
    ensures Params(text + out) == Ends(text) + Params(out)
  {
    hide Params;
    if text == [] {
      assert text + out == out;
    } else {
      ParamFirst(text, out);
    }
  }

  lemma NoneFound(text: seq<Byte>)
    requires 0 !in text
    ensures Params(text) == Ends(text)
  {
    hide Params;
    EndParams(text, []);
    EmptyLine();
    assert text + [] == text;
  }

  /** One move of the scan, in the order of the branches of Found. */
  lemma MoveFound(s: seq<Byte>, m: Mode, text: seq<Byte>)
    requires s != [] && 0 !in s && Open(m, text)
    ensures var move, m' := NextMove(s, Looking(m), InQuotes(m)), NextMode(s, m);
            && (move.used < |s| ==> move.looking == Looking(m') && move.quoted == InQuotes(m'))
            && if move.out == [0] then Found(s, m, text) == Ends(text) + Found(s[1..], m', []) && move.used == 1
                                       && Open(m', [])
               else if move.out == [EMPTY, 0] && move.used == 2 && s[0] == QUOTE then
                 text == [] && m == Between && Found(s, m, text) == [[]] + Found(s[2..], m', []) && Open(m', [])
               else if move.out == [] then Found(s, m, text) == Ends(text) && move.used == |s|
               else && |move.out| == 1 && Found(s, m, text) == Found(s[move.used..], m', text + move.out)
                    && Open(m', text + move.out)
  {
    hide Found;
    FoundStep(s, m, text);
  }

  lemma FoundStep(s: seq<Byte>, m: Mode, text: seq<Byte>)
    requires s != []
    ensures Found(s, m, text)
            == if m == Owed || m == Begun(true) then
                 if s[0] == 0x22 then Ends(text) + Found(s[1..], Between, [])
                 else if s[0] != 0x5C then Found(s[1..], Begun(true), text + [s[0]])
                 else if |s| == 1 then Ends(text)
                 else Found(s[2..], Begun(true), text + [s[1]])
               else if s[0] == 0x20 then Ends(text) + Found(s[1..], Between, [])
               else if s[0] == 0x22 then
                 if m == Between && 1 < |s| && s[1] == 0x22 then [[]] + Found(s[2..], Spent, [])
                 else Ends(text) + Found(s[1..], Owed, [])
               else if s[0] != 0x5C then Found(s[1..], Begun(false), text + [s[0]])
               else if |s| == 1 then Ends(text)
               else Found(s[2..], Begun(false), text + [s[1]])
  {
  }

  lemma EmptyMarked(out: seq<Byte>)
    ensures Params([EMPTY, 0] + out) == [[]] + Params(out)
  {
    hide Params;
    ParamFirst([EMPTY], [0] + out);
    ZeroFirst(out);
    assert [EMPTY, 0] + out == [EMPTY] + ([0] + out);
  }

  lemma ZeroAfter(text: seq<Byte>, out: seq<Byte>)
    requires 0 !in text
    ensures Params(text + ([0] + out)) == Ends(text) + Params(out)
  {
    hide Params;
    EndParams(text, [0] + out);
    ZeroFirst(out);
  }

  /** From every point of every line. */
  lemma {:induction false} FoundFrom(s: seq<Byte>, m: Mode, text: seq<Byte>)
    requires 0 !in s && Open(m, text)
    ensures Params(text + Scan(s, Looking(m), InQuotes(m)).out) == Found(s, m, text)
    decreases |s|
  {
    hide Scan, Params, NextMove, NextMode, Found, Looking, InQuotes, Open, Ends;
    OpenText(m, text);
    if s == [] {
      EndScan(Looking(m), InQuotes(m));
      NoneFound(text);
      NoMore(m, text);
      assert text + [] == text;
    } else {
      var move, m' := NextMove(s, Looking(m), InQuotes(m)), NextMode(s, m);
      var rest := s[move.used..];
      MoveFound(s, m, text);
      ScanMove(s, Looking(m), InQuotes(m));
      var out := Scan(rest, move.looking, move.quoted).out;
      if rest == [] {
        EndScan(move.looking, move.quoted);
        EndScan(Looking(m'), InQuotes(m'));
      }
      assert out == Scan(rest, Looking(m'), InQuotes(m')).out;
      if move.out == [0] {
        FoundFrom(rest, m', []);
        ZeroAfter(text, out);
        NothingRead(out);
      } else if move.out == [EMPTY, 0] && move.used == 2 && s[0] == QUOTE {
        FoundFrom(rest, m', []);
        EmptyMarked(out);
        NothingRead(out);
        NothingRead([EMPTY, 0] + out);
      } else if move.out == [] {
        NoneFound(text);
        assert text + ([] + []) == text;
      } else {
        FoundFrom(rest, m', text + move.out);
        Regroup(text, move.out, out);
      }
    }
  }

  lemma NothingRead(out: seq<Byte>)
    ensures [] + out == out
  {
  }

  lemma Regroup(a: seq<Byte>, b: seq<Byte>, c: seq<Byte>)
    ensures a + (b + c) == (a + b) + c
  {
  }

  lemma OpenText(m: Mode, text: seq<Byte>)
    requires Open(m, text)
    ensures 0 !in text
  {
  }

  lemma NoMore(m: Mode, text: seq<Byte>)
    ensures Found([], m, text) == Ends(text)
  {
  }

  /** The parameters of every line are those told from the line itself. */
  lemma ParamsAreFound(s: seq<Byte>)
    requires 0 !in s
    ensures Params(Scan(s, false, false).out) == Found(s, Between, [])
  {
    hide Scan, Params, Found;
    FoundFrom(s, Between, []);
    assert [] + Scan(s, false, false).out == Scan(s, false, false).out;
  }
}
