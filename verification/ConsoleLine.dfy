/** The console's line buffer: it is tokenised in place, and its parameters are found again by their number. */
module ConsoleLine {
  import opened Tokenizer

  /** A string stands in the buffer from `i` to `end`, with a zero after it. */
  ghost predicate Holds(buffer: array<Byte>, i: nat, end: nat)
    reads buffer
  {
    i <= end < buffer.Length && (forall k | i <= k < end :: buffer[k] != 0) && buffer[end] == 0
  }

  /** Copies the string after `i` over the byte at `i`. */
  method DropByte(buffer: array<Byte>, i: nat, ghost end: nat)
    requires i < end && Holds(buffer, i, end)
    modifies buffer
    ensures forall k | i <= k < end :: buffer[k] == old(buffer[k + 1])
    ensures forall k | 0 <= k < buffer.Length && !(i <= k < end) :: buffer[k] == old(buffer[k])
  {
    var j := i;
    while buffer[j + 1] != 0
      invariant i <= j < end
      invariant forall k | i <= k < j :: buffer[k] == old(buffer[k + 1])
      invariant forall k | 0 <= k < buffer.Length && !(i <= k < j) :: buffer[k] == old(buffer[k])
      decreases end - j
    {
      buffer[j] := buffer[j + 1];
      j := j + 1;
    }
    buffer[j] := 0;
  }

  /** The branches of one visit, without the treatment of a backslash. */
  method Mark(buffer: array<Byte>, i: nat, looking: bool, quoted: bool, num: nat, ghost end: nat)
    returns (i': nat, looking': bool, quoted': bool, num': nat)
    requires i < end && Holds(buffer, i, end)
    modifies buffer
    ensures forall k | 0 <= k < buffer.Length && !(i <= k <= i') :: buffer[k] == old(buffer[k])
    ensures var m := NextMove(old(buffer[i..end]), looking, quoted);
            && looking' == m.looking && quoted' == m.quoted && num' == num + m.counted
            && if m.out == [EMPTY, 0] && m.used == 2 && old(buffer[i]) == QUOTE
               then i' == i + 1 && buffer[i] == EMPTY && buffer[i'] == 0
               else i' == i && buffer[i] == if m.out == [0] && m.used == 1 then 0 else old(buffer[i])
  {
    i', looking', quoted', num' := i, looking, quoted, num;
    if !looking && buffer[i] == SPACE {
      buffer[i] := 0;
    } else if !looking && buffer[i] != SPACE {
      if buffer[i] == QUOTE {
        if buffer[i + 1] == QUOTE {
          buffer[i] := EMPTY;
          i' := i + 1;
          buffer[i'] := 0;
        } else {
          quoted' := true;
          buffer[i] := 0;
        }
      }
      looking' := true;
      num' := num + 1;
    } else if looking && !quoted && (buffer[i] == SPACE || buffer[i] == QUOTE) {
      if buffer[i] == QUOTE {
        quoted' := true;
        looking' := true;
        num' := num + 1;
      } else {
        looking' := false;
      }
      buffer[i] := 0;
    } else if looking && quoted && buffer[i] == QUOTE {
      looking' := false;
      quoted' := false;
      buffer[i] := 0;
    }
  }

  /** One turn of the scan. */
  method Visit(buffer: array<Byte>, i: nat, looking: bool, quoted: bool, num: nat, ghost end: nat)
    returns (i': nat, looking': bool, quoted': bool, num': nat, ghost end': nat)
    requires i < end && Holds(buffer, i, end)
    modifies buffer
    ensures var s := old(buffer[i..end]);
            var m := NextMove(s, looking, quoted);
            && looking' == m.looking && quoted' == m.quoted && num' == num + m.counted
            && i <= end' <= end && Holds(buffer, end', end')
            && (m.out == [] ==> i' == i + 1 && end' == i)
            && (m.out != [] ==> && i' == i + |m.out| && Holds(buffer, i', end')
                                && buffer[i..i'] == m.out && buffer[i'..end'] == s[m.used..])
    ensures forall k | end' <= k <= end :: buffer[k] == 0
    ensures forall k | 0 <= k < buffer.Length && !(i <= k < end) :: buffer[k] == old(buffer[k])
  {
    ghost var s := buffer[i..end];
    i', looking', quoted', num' := Mark(buffer, i, looking, quoted, num, end);
    end' := end;
    if buffer[i'] == BACKSLASH {
      DropByte(buffer, i', end);
      end' := end - 1;
    }
    i' := i' + 1;
  }

  lemma Resume(p: seq<Byte>, n: nat, m: Move, r: Scanned, whole: Scanned)
    requires whole == Scanned(p + (m.out + r.out), n + (m.counted + r.num))
    ensures whole == Scanned((p + m.out) + r.out, (n + m.counted) + r.num)
  {
    assert p + (m.out + r.out) == (p + m.out) + r.out;
  }

  /** Tokenises the string at the start of the buffer in place, and returns the number of its parameters. */
  method ConNullify(buffer: array<Byte>, ghost end: nat) returns (num: nat)
    requires Holds(buffer, 0, end)
    modifies buffer
    ensures var r := Scan(old(buffer[..end]), false, false);
            && num == r.num && |r.out| <= end && buffer[..|r.out|] == r.out
            && forall k | |r.out| <= k <= end :: buffer[k] == 0
    ensures forall k | end < k < buffer.Length :: buffer[k] == old(buffer[k])
  {
    hide Scan, NextMove;
    ghost var whole := Scan(buffer[..end], false, false);
    var looking, quoted, i: nat := false, false, 0;
    num := 0;
    ghost var last, stop: nat := 0, end;
    assert buffer[..0] == [] && buffer[0..end] == buffer[..end];
    while buffer[i] != 0
      invariant last <= stop <= end < buffer.Length && Holds(buffer, last, stop)
      invariant i == last || (i == last + 1 && last == stop < end)
      invariant whole.out == buffer[..last] + Scan(buffer[last..stop], looking, quoted).out
      invariant whole.num == num + Scan(buffer[last..stop], looking, quoted).num
      invariant forall k | stop <= k <= end :: buffer[k] == 0
      invariant forall k | end < k < buffer.Length :: buffer[k] == old(buffer[k])
      decreases stop - last, end - i
    {
      ghost var s, before := buffer[i..stop], buffer[..i];
      ghost var m := NextMove(s, looking, quoted);
      ScanMove(s, looking, quoted);
      Resume(before, num, m, Scan(s[m.used..], m.looking, m.quoted), whole);
      ghost var stop';
      i, looking, quoted, num, stop' := Visit(buffer, i, looking, quoted, num, stop);
      last, stop := last + |m.out|, stop';
      assert buffer[..last] == before + m.out;
      assert buffer[last..stop] == s[m.used..];
    }
    ScanNothing(looking, quoted);
    assert buffer[last..stop] == [];
  }

  lemma ScanNothing(looking: bool, quoted: bool)
    ensures Scan([], looking, quoted) == Scanned([], 0)
  {
  }

  // ----- Finding a parameter -----

  /** The parameters after the one that `s` begins with. */
  function After(s: seq<Byte>): seq<seq<Byte>> {
    Split(s[Run(s, 0)..], 0)
  }

  lemma AfterStep(s: seq<Byte>)
    requires s != []
    ensures s[0] != 0 ==> After(s[1..]) == After(s)
    ensures s[0] == 0 ==> After(s) == Split(s, 0) == Split(s[1..], 0)
    ensures 1 < |s| && s[0] == 0 && s[1] == 0 ==> After(s[1..]) == After(s)
    ensures s[0] != 0 ==> Split(s, 0) == [s[..Run(s, 0)]] + After(s)
  {
    if s[0] != 0 {
      assert Run(s, 0) == 1 + Run(s[1..], 0);
      assert s[1..][Run(s[1..], 0)..] == s[Run(s, 0)..];
    } else {
      assert s[0..] == s;
      if 1 < |s| {
        assert s[1..][0..] == s[1..];
      }
    }
  }

  lemma NothingAfter()
    ensures After([]) == [] && Split([], 0) == []
  {
  }

  datatype Option<T> = None | Some(value: T)

  /** The string from `p` on runs to `q`: to the next zero, or to the end of the memory. */
  ghost predicate Runs(buffer: array<Byte>, p: nat, q: nat)
    reads buffer
  {
    p <= q <= buffer.Length && (forall k | p <= k < q :: buffer[k] != 0) && (q < buffer.Length ==> buffer[q] == 0)
  }

  /** Parameter number `k` of the memory stands at `p`. */
  ghost predicate IsParam(buffer: array<Byte>, k: nat, p: nat)
    reads buffer
  {
    && k < |Params(buffer[..])|
    && exists q | p <= q <= buffer.Length ::
         && Runs(buffer, p, q) && buffer[p..q] == Params(buffer[..])[k]
         && (q == buffer.Length <==> k == |Params(buffer[..])| - 1 && buffer[buffer.Length - 1] != 0)
  }

  /** Where the parameters from `k` on begin: `s` starts with parameter `k`. */
  lemma HeadIsParam(all: seq<seq<Byte>>, s: seq<Byte>, k: nat)
    requires k < |all| && all[k..] == Split(s, 0) && s != [] && s[0] != 0
    ensures all[k] == s[..Run(s, 0)] && all[k + 1..] == After(s)
  {
    AfterStep(s);
    assert all[k] == all[k..][0] && all[k + 1..] == all[k..][1..];
  }

  /** A stretch that is the last one and not ended runs to the end. */
  lemma {:induction false} LastStretch(s: seq<Byte>)
    ensures Split(s, 0) == [] ==> s == [] || s[|s| - 1] == 0
    decreases |s|
  {
    if s != [] && s[0] == 0 {
      LastStretch(s[1..]);
    }
  }

  lemma HeadRuns(s: seq<Byte>)
    requires s != [] && s[0] != 0
    ensures Run(s, 0) == |s| <==> After(s) == [] && s[|s| - 1] != 0
  {
    var n := Run(s, 0);
    NothingAfter();
    if n < |s| {
      LastStretch(s[n..]);
    } else {
      assert s[n..] == [];
    }
  }

  /** Skips the zeros before the first parameter, if there is one in the memory. */
  method SkipZeros(buffer: array<Byte>) returns (i: nat)
    ensures i <= buffer.Length && Split(buffer[i..], 0) == Split(buffer[..], 0)
    ensures if i < buffer.Length then buffer[i] != 0 else Split(buffer[..], 0) == []
  {
    hide Split;
    i := 0;
    assert buffer[0..] == buffer[..];
    NothingAfter();
    while i < buffer.Length && buffer[i] == 0
      invariant i <= buffer.Length && Split(buffer[i..], 0) == Split(buffer[..], 0)
    {
      AfterStep(buffer[i..]);
      assert buffer[i..][1..] == buffer[i + 1..];
      i := i + 1;
    }
    if i == buffer.Length {
      assert buffer[i..] == [];
    }
  }

  /** The start of the stretch with number `num`, or none: then the search leaves the memory. */
  method SkipParams(buffer: array<Byte>, num: nat) returns (r: Option<nat>)
    ensures r.Some? <==> num < |Split(buffer[..], 0)|
    ensures r.Some? ==> r.value < buffer.Length && buffer[r.value] != 0
                        && Split(buffer[r.value..], 0) == Split(buffer[..], 0)[num..]
  {
    hide Split, After;
    var i := SkipZeros(buffer);
    if i == buffer.Length {
      return None;
    }
    ghost var all := Split(buffer[..], 0);
    var numnulls := 0;
    AfterStep(buffer[i..]);
    assert all[0..] == all && After(buffer[i..]) == all[1..];
    NothingAfter();
    while numnulls < num
      invariant numnulls <= num && i <= buffer.Length && numnulls < |all| && After(buffer[i..]) == all[numnulls + 1..]
      invariant numnulls == num ==> i < buffer.Length && buffer[i] != 0 && Split(buffer[i..], 0) == all[num..]
      decreases buffer.Length - i
    {
      if i == buffer.Length {
        assert buffer[i..] == [];
        return None;
      }
      ghost var s := buffer[i..];
      AfterStep(s);
      assert s[1..] == buffer[i + 1..];
      if buffer[i] == 0 && i + 1 == buffer.Length {
        assert s[1..] == [];
        return None;
      }
      if buffer[i] == 0 && buffer[i + 1] != 0 {
        AfterStep(s[1..]);
        assert all[numnulls + 1..][1..] == all[numnulls + 2..];
        numnulls := numnulls + 1;
      }
      i := i + 1;
    }
    return Some(i);
  }

  /** The start of parameter `num`; the mark of an empty one is stepped over.  The search knows no end: with fewer
      parameters in the memory it leaves it. */
  method ConGetparam(buffer: array<Byte>, num: nat) returns (r: Option<nat>)
    ensures r.Some? <==> num < |Params(buffer[..])|
    ensures r.Some? ==> IsParam(buffer, num, r.value)
  {
    hide Split, After;
    r := SkipParams(buffer, num);
    if r.Some? {
      var p := r.value;
      ghost var s := buffer[p..];
      ghost var q := p + Run(s, 0);
      HeadIsParam(Split(buffer[..], 0), s, num);
      HeadRuns(s);
      assert s[|s| - 1] == buffer[buffer.Length - 1];
      assert forall k | p <= k < q :: buffer[k] == s[k - p];
      if q < buffer.Length {
        assert buffer[q] == s[q - p];
      }
      assert buffer[p..q] == s[..q - p];
      if buffer[p] == EMPTY {
        p := p + 1;
        assert s[..q + 1 - p][1..] == buffer[p..q];
      }
      assert Runs(buffer, p, q);
      return Some(p);
    }
  }

  // ----- What can be found in the memory -----

  /** The parameters with a zero after them. */
  function Ended(s: seq<Byte>): seq<seq<Byte>> {
    var all := Params(s);
    if all != [] && s != [] && s[|s| - 1] != 0 then all[..|all| - 1] else all
  }

  lemma SplitStep(s: seq<Byte>)
    requires s != []
    ensures Split(s, 0) == if s[0] == 0 then Split(s[1..], 0) else [s[..Run(s, 0)]] + Split(s[Run(s, 0)..], 0)
  {
  }

  lemma {:induction false} SplitJoined(a: seq<Byte>, b: seq<Byte>)
    requires a == [] || a[|a| - 1] == 0 || b == [] || b[0] == 0
    ensures Split(a + b, 0) == Split(a, 0) + Split(b, 0)
    decreases |a|
  {
    hide Split;
    if a == [] {
      NothingAfter();
      assert a + b == b;
    } else {
      SplitStep(a);
      SplitStep(a + b);
      if a[0] == 0 {
        SplitJoined(a[1..], b);
        assert (a + b)[1..] == a[1..] + b;
      } else {
        var n := Run(a, 0);
        RunJoined(a, b);
        SplitJoined(a[n..], b);
        assert (a + b)[n..] == a[n..] + b && (a + b)[..n] == a[..n];
      }
    }
  }

  lemma {:induction false} RunJoined(a: seq<Byte>, b: seq<Byte>)
    requires b == [] || b[0] == 0 || (a != [] && a[|a| - 1] == 0)
    ensures Run(a + b, 0) == Run(a, 0)
    decreases |a|
  {
    if a == [] {
      assert a + b == b;
    } else if a[0] != 0 {
      RunJoined(a[1..], b);
      assert (a + b)[1..] == a[1..] + b;
    }
  }

  lemma {:induction false} NoStretch(zeros: seq<Byte>)
    requires forall k | 0 <= k < |zeros| :: zeros[k] == 0
    ensures Split(zeros, 0) == []
    decreases |zeros|
  {
    if zeros != [] {
      NoStretch(zeros[1..]);
    }
  }

  /** Behind a line with its zeros the memory goes on. */
  lemma EndedAfter(line: seq<Byte>, zeros: seq<Byte>, stale: seq<Byte>)
    requires zeros != [] && forall k | 0 <= k < |zeros| :: zeros[k] == 0
    ensures Ended(line + zeros + stale) == Params(line) + Ended(stale)
  {
    hide Split;
    SplitJoined(line, zeros);
    NoStretch(zeros);
    SplitJoined(line + zeros, stale);
    ParamsJoined(line, stale, line + zeros + stale);
    if stale != [] {
      LastStretch(stale);
      assert (line + zeros + stale)[|line + zeros + stale| - 1] == stale[|stale| - 1];
    } else {
      assert (line + zeros + stale)[|line + zeros + stale| - 1] == zeros[|zeros| - 1];
    }
  }

  lemma ParamsJoined(a: seq<Byte>, b: seq<Byte>, whole: seq<Byte>)
    requires Split(whole, 0) == Split(a, 0) + Split(b, 0)
    ensures Params(whole) == Params(a) + Params(b)
  {
    hide Split;
  }
}
