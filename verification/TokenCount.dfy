/** When the tokenizer counts as many parameters as can be found afterwards, for every line.

    A parameter is lost when it is counted and then leaves no byte: a quotation opened inside or after another parameter
    and closed at once, or a quote or a lone backslash at the end of the line.  A parameter is extra when it begins,
    uncounted, right behind an empty quotation.
 */
module TokenCount {
  import opened Tokenizer

  /** Where a scan stands: between parameters; in a quoted one that has left no byte yet; in one that has; or
      right behind an empty quotation. */
  datatype Mode = Between | Owed | Begun(quoted: bool) | Spent

  function Looking(m: Mode): bool {
    m != Between
  }

  function InQuotes(m: Mode): bool {
    m == Owed || (m.Begun? && m.quoted)
  }

  /** The byte `c` ends or opens something rather than standing for itself. */
  predicate Marks(c: Byte, m: Mode) {
    c == QUOTE || (c == SPACE && !InQuotes(m))
  }

  function NextMode(s: seq<Byte>, m: Mode): Mode
    requires s != []
  {
    if Marks(s[0], m) then
      if s[0] == SPACE || InQuotes(m) then Between
      else if m == Between && 1 < |s| && s[1] == QUOTE then Spent
      else Owed
    else if s == [BACKSLASH] then m
    else Begun(InQuotes(m))
  }

  /** The number of parameters that are counted and lost. */
  function Lost(s: seq<Byte>, m: Mode): nat
    decreases |s|
  {
    if s == [] then if m == Owed then 1 else 0
    else
      var move := NextMove(s, Looking(m), InQuotes(m));
      var now := if (m == Owed && s[0] == QUOTE) || (m == Between && s == [BACKSLASH]) then 1 else 0;
      now + Lost(s[move.used..], NextMode(s, m))
  }

  /** The number of parameters that are found and not counted. */
  function Extra(s: seq<Byte>, m: Mode): nat
    decreases |s|
  {
    if s == [] then 0
    else
      var move := NextMove(s, Looking(m), InQuotes(m));
      (if m == Spent && NextMode(s, m).Begun? then 1 else 0) + Extra(s[move.used..], NextMode(s, m))
  }

  /** The stretches between zeros that begin in `s`, which may itself begin inside one. */
  function Starts(s: seq<Byte>, inside: bool): nat {
    if s == [] then 0
    else if s[0] == 0 then Starts(s[1..], false)
    else (if inside then 0 else 1) + Starts(s[1..], true)
  }

  lemma {:induction false} StartsAfterRun(s: seq<Byte>, n: nat)
    requires n <= |s| && forall i | 0 <= i < n :: s[i] != 0
    ensures Starts(s, true) == Starts(s[n..], true)
    decreases n
  {
    if n == 0 {
      assert s[0..] == s;
    } else {
      StartsAfterRun(s[1..], n - 1);
      assert s[1..][n - 1..] == s[n..];
    }
  }

  lemma {:induction false} SplitStarts(s: seq<Byte>)
    ensures |Split(s, 0)| == Starts(s, false)
    decreases |s|
  {
    if s == [] {
    } else if s[0] == 0 {
      SplitStarts(s[1..]);
    } else {
      var n := Run(s, 0);
      SplitStarts(s[n..]);
      StartsAfterRun(s[1..], n - 1);
      assert s[1..][n - 1..] == s[n..];
      assert n == |s| || s[n] == 0;
      SameStarts(s[n..]);
    }
  }

  lemma SameStarts(s: seq<Byte>)
    requires s == [] || s[0] == 0
    ensures Starts(s, true) == Starts(s, false)
  {
  }

  /** What a move leaves begins as many stretches as are counted by it, but for those lost or extra. */
  lemma MoveStarts(s: seq<Byte>, m: Mode, out: seq<Byte>)
    requires s != [] && 0 !in s
    ensures var move, m' := NextMove(s, Looking(m), InQuotes(m)), NextMode(s, m);
            && (move.used < |s| ==> move.looking == Looking(m') && move.quoted == InQuotes(m'))
            && move.counted + (if m == Owed then 1 else 0) + (if m == Spent && m'.Begun? then 1 else 0)
               + Starts(out, m'.Begun?)
               == Starts(move.out + out, m.Begun?) + (if m' == Owed then 1 else 0)
                  + (if (m == Owed && s[0] == QUOTE) || (m == Between && s == [BACKSLASH]) then 1 else 0)
  {
    var move := NextMove(s, Looking(m), InQuotes(m));
    if |move.out| == 0 {
      assert move.out + out == out;
    } else if |move.out| == 1 {
      assert (move.out + out)[1..] == out;
    } else {
      assert (move.out + out)[1..] == [0] + out && ([0] + out)[1..] == out;
    }
  }

  lemma EndScan(looking: bool, quoted: bool)
    ensures Scan([], looking, quoted) == Scanned([], 0)
  {
  }

  /** Counted and extra parameters make up those found and those lost. */
  predicate Balanced(s: seq<Byte>, m: Mode) {
    var r := Scan(s, Looking(m), InQuotes(m));
    r.num + (if m == Owed then 1 else 0) + Extra(s, m) == Starts(r.out, m.Begun?) + Lost(s, m)
  }

  lemma NoneBalanced(m: Mode)
    ensures Balanced([], m)
  {
  }

  lemma LostStep(s: seq<Byte>, m: Mode)
    requires s != []
    ensures Lost(s, m) == (if (m == Owed && s[0] == QUOTE) || (m == Between && s == [BACKSLASH]) then 1 else 0)
                          + Lost(s[NextMove(s, Looking(m), InQuotes(m)).used..], NextMode(s, m))
    ensures Extra(s, m) == (if m == Spent && NextMode(s, m).Begun? then 1 else 0)
                           + Extra(s[NextMove(s, Looking(m), InQuotes(m)).used..], NextMode(s, m))
  {
    hide NextMove, NextMode;
  }

  lemma BalanceStep(s: seq<Byte>, m: Mode)
    requires s != [] && 0 !in s
    requires Balanced(s[NextMove(s, Looking(m), InQuotes(m)).used..], NextMode(s, m))
    ensures Balanced(s, m)
  {
    hide Scan, NextMove, NextMode, Looking, InQuotes, Starts, Lost, Extra;
    var move, m' := NextMove(s, Looking(m), InQuotes(m)), NextMode(s, m);
    var rest := s[move.used..];
    ScanMove(s, Looking(m), InQuotes(m));
    LostStep(s, m);
    if rest == [] {
      EndScan(move.looking, move.quoted);
      EndScan(Looking(m'), InQuotes(m'));
    }
    MoveStarts(s, m, Scan(rest, move.looking, move.quoted).out);
  }

  /** From every point of every line. */
  lemma {:induction false} Balance(s: seq<Byte>, m: Mode)
    requires 0 !in s
    ensures Balanced(s, m)
    decreases |s|
  {
    hide Balanced, NextMove, NextMode;
    if s == [] {
      NoneBalanced(m);
    } else {
      Balance(s[NextMove(s, Looking(m), InQuotes(m)).used..], NextMode(s, m));
      BalanceStep(s, m);
    }
  }

  /** For every line, the count exceeds the parameters found by those lost less those extra. */
  lemma CountAgainstFound(s: seq<Byte>)
    requires 0 !in s
    ensures var r := Scan(s, false, false); r.num + Extra(s, Between) == |Params(r.out)| + Lost(s, Between)
  {
    hide Scan, Extra, Lost, Split, Starts;
    Balance(s, Between);
    SplitStarts(Scan(s, false, false).out);
  }

  /** So it is right if and only if as many are lost as are extra. */
  lemma CountRightIff(s: seq<Byte>)
    requires 0 !in s
    ensures var r := Scan(s, false, false); r.num == |Params(r.out)| <==> Lost(s, Between) == Extra(s, Between)
  {
    hide Scan, Extra, Lost, Params;
    CountAgainstFound(s);
  }

  /** Both happen: an empty quotation behind a word is lost, and a word behind an empty quotation is extra. */
  lemma LostAndExtra(c: Byte)
    requires c != 0 && c != SPACE && c != QUOTE && c != BACKSLASH
    ensures Lost([c, QUOTE, QUOTE], Between) == 1 && Extra([c, QUOTE, QUOTE], Between) == 0
    ensures Lost([QUOTE, QUOTE, c], Between) == 0 && Extra([QUOTE, QUOTE, c], Between) == 1
  {
    var s, t := [c, QUOTE, QUOTE], [QUOTE, QUOTE, c];
    assert s[1..] == [QUOTE, QUOTE] && [QUOTE, QUOTE][1..] == [QUOTE] && [QUOTE][1..] == [];
    assert t[2..] == [c] && [c][1..] == [];
    assert Lost([QUOTE], Owed) == 1 && Extra([QUOTE], Owed) == 0;
    assert Lost([QUOTE, QUOTE], Begun(false)) == 1 && Extra([QUOTE, QUOTE], Begun(false)) == 0;
    assert Lost([c], Spent) == 0 && Extra([c], Spent) == 1;
  }
}
