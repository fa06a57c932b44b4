/** The tokenizer of the console: it cuts a line into parameters by overwriting separators with zeros in place. */
module Tokenizer {

  type Byte = x: int | 0 <= x < 256

  const SPACE: Byte := 0x20
  const QUOTE: Byte := 0x22
  const BACKSLASH: Byte := 0x5C
  const EMPTY: Byte := 0xFF

  // ----- The scan on values -----

  /** What the scan leaves of the line, and how many parameters it counts. */
  datatype Scanned = Scanned(out: seq<Byte>, num: nat)

  function Emit(c: Byte, r: Scanned): Scanned {
    Scanned([c] + r.out, r.num)
  }

  function Counted(r: Scanned): Scanned {
    Scanned(r.out, r.num + 1)
  }

  /** Inside or outside a parameter, quoted or not.  A backslash is dropped and the byte after it kept as it is. */
  function Scan(s: seq<Byte>, looking: bool, quoted: bool): Scanned
    decreases |s|
  {
    if s == [] then Scanned([], 0)
    else
      var c, rest := s[0], s[1..];
      if !looking && c == SPACE then Emit(0, Scan(rest, false, quoted))
      else if !looking && c == QUOTE then
        if rest != [] && rest[0] == QUOTE then Counted(Emit(EMPTY, Emit(0, Scan(rest[1..], true, quoted))))
        else Counted(Emit(0, Scan(rest, true, true)))
      else if looking && !quoted && c == QUOTE then Counted(Emit(0, Scan(rest, true, true)))
      else if looking && !quoted && c == SPACE then Emit(0, Scan(rest, false, false))
      else if looking && quoted && c == QUOTE then Emit(0, Scan(rest, false, false))
      else
        var here := if c == BACKSLASH then
                      if rest == [] then Scanned([], 0) else Emit(rest[0], Scan(rest[1..], true, quoted))
                    else Emit(c, Scan(rest, true, quoted));
        if looking then here else Counted(here)
  }

  /** One step of the scan: what it leaves, how many bytes it uses up, the new state and whether it counts. */
  datatype Move = Move(out: seq<Byte>, used: nat, looking: bool, quoted: bool, counted: nat)

  function NextMove(s: seq<Byte>, looking: bool, quoted: bool): (m: Move)
    requires s != []
    ensures 1 <= m.used <= |s| && |m.out| <= m.used
    ensures |m.out| == 0 <==> s == [BACKSLASH]
  {
    var c := s[0];
    var counted := if looking then 0 else 1;
    if !looking && c == SPACE then Move([0], 1, false, quoted, 0)
    else if !looking && c == QUOTE then
      if 1 < |s| && s[1] == QUOTE then Move([EMPTY, 0], 2, true, quoted, 1) else Move([0], 1, true, true, 1)
    else if looking && !quoted && c == QUOTE then Move([0], 1, true, true, 1)
    else if looking && ((!quoted && c == SPACE) || (quoted && c == QUOTE)) then Move([0], 1, false, false, 0)
    else if c != BACKSLASH then Move([c], 1, true, quoted, counted)
    else if |s| == 1 then Move([], 1, true, quoted, counted)
    else Move([s[1]], 2, true, quoted, counted)
  }

  lemma ScanMove(s: seq<Byte>, looking: bool, quoted: bool)
    requires s != []
    ensures var m := NextMove(s, looking, quoted);
            var r := Scan(s[m.used..], m.looking, m.quoted);
            Scan(s, looking, quoted) == Scanned(m.out + r.out, m.counted + r.num)
  {
    if 1 < |s| {
      assert s[1..][1..] == s[2..];
    } else {
      assert s[1..] == [];
    }
  }

  // ----- The parameters in a buffer -----

  /** The stretches between zeros, without the empty ones. */
  function Split(s: seq<Byte>, sep: Byte): seq<seq<Byte>>
    decreases |s|
  {
    if s == [] then []
    else if s[0] == sep then Split(s[1..], sep)
    else
      var n := Run(s, sep);
      [s[..n]] + Split(s[n..], sep)
  }

  /** The length of the stretch before the first separator. */
  function Run(s: seq<Byte>, sep: Byte): (n: nat)
    ensures n <= |s| && (forall i | 0 <= i < n :: s[i] != sep) && (n < |s| ==> s[n] == sep)
    ensures s != [] && s[0] != sep ==> 0 < n
  {
    if s == [] || s[0] == sep then 0 else 1 + Run(s[1..], sep)
  }

  /** A parameter as it is handed out: the mark of an empty one is dropped. */
  function Unmarked(s: seq<Byte>): seq<Byte> {
    if s != [] && s[0] == EMPTY then s[1..] else s
  }

  function Params(s: seq<Byte>): (r: seq<seq<Byte>>)
    ensures |r| == |Split(s, 0)| && forall k | 0 <= k < |r| :: r[k] == Unmarked(Split(s, 0)[k])
  {
    seq(|Split(s, 0)|, k requires 0 <= k < |Split(s, 0)| => Unmarked(Split(s, 0)[k]))
  }

  // ----- Lines without quotes -----

  predicate Plain(s: seq<Byte>) {
    forall i | 0 <= i < |s| :: s[i] != 0 && s[i] != QUOTE && s[i] != BACKSLASH && s[i] != EMPTY
  }

  /** A plain line with its spaces replaced. */
  function Blanked(s: seq<Byte>): (r: seq<Byte>)
    ensures |r| == |s| && forall i | 0 <= i < |s| :: r[i] == if s[i] == SPACE then 0 else s[i]
  {
    seq(|s|, i requires 0 <= i < |s| => if s[i] == SPACE then 0 else s[i])
  }

  lemma {:induction false} PlainScan(s: seq<Byte>, looking: bool)
    requires Plain(s)
    ensures Scan(s, looking, false).out == Blanked(s)
    decreases |s|
  {
    if s != [] {
      PlainScan(s[1..], s[0] != SPACE);
      assert Blanked(s) == [Blanked(s)[0]] + Blanked(s[1..]);
    }
  }

  /** The words of a line. */
  function Words(s: seq<Byte>): seq<seq<Byte>> {
    Split(s, SPACE)
  }

  lemma {:induction false} SameRun(s: seq<Byte>)
    requires Plain(s)
    ensures Run(Blanked(s), 0) == Run(s, SPACE)
  {
    if s != [] && s[0] != SPACE {
      SameRun(s[1..]);
      assert Blanked(s)[1..] == Blanked(s[1..]);
    }
  }

  lemma {:induction false} SameSplit(s: seq<Byte>)
    requires Plain(s)
    ensures Split(Blanked(s), 0) == Words(s)
    decreases |s|
  {
    if s == [] {
    } else if s[0] == SPACE {
      SameSplit(s[1..]);
      assert Blanked(s)[1..] == Blanked(s[1..]);
    } else {
      var n := Run(s, SPACE);
      SameRun(s);
      SameSplit(s[n..]);
      assert Blanked(s)[..n] == s[..n];
      assert Blanked(s)[n..] == Blanked(s[n..]);
    }
  }

  lemma {:induction false} PlainCount(s: seq<Byte>, looking: bool)
    requires Plain(s)
    ensures Scan(s, looking, false).num == |Words(s)| - (if looking && s != [] && s[0] != SPACE then 1 else 0)
    decreases |s|
  {
    if s == [] {
    } else if s[0] == SPACE {
      PlainCount(s[1..], false);
    } else {
      PlainCount(s[1..], true);
      WordsAfter(s);
    }
  }

  /** Taking a byte off a word leaves the same number of words, unless it was the last byte of the word. */
  lemma WordsAfter(s: seq<Byte>)
    requires s != [] && s[0] != SPACE
    ensures |Words(s)| == |Words(s[1..])| + if 1 < |s| && s[1] != SPACE then 0 else 1
  {
    var n := Run(s, SPACE);
    if 1 < |s| && s[1] != SPACE {
      assert s[1..][n - 1..] == s[n..];
    }
  }

  lemma PlainParams(s: seq<Byte>)
    requires Plain(s)
    ensures Params(Blanked(s)) == Words(s)
  {
    SameSplit(s);
    UnmarkedWords(s);
  }

  lemma {:induction false} UnmarkedWords(s: seq<Byte>)
    requires Plain(s)
    ensures forall k | 0 <= k < |Words(s)| :: Unmarked(Words(s)[k]) == Words(s)[k]
    decreases |s|
  {
    if s == [] {
    } else if s[0] == SPACE {
      UnmarkedWords(s[1..]);
      assert Words(s) == Words(s[1..]);
    } else {
      var n := Run(s, SPACE);
      UnmarkedWords(s[n..]);
      assert Words(s) == [s[..n]] + Words(s[n..]);
      assert forall k | 0 < k < |Words(s)| :: Words(s)[k] == Words(s[n..])[k - 1];
    }
  }

  /** A line without quotes or backslashes is cut into exactly its words, and they are counted. */
  lemma PlainLine(s: seq<Byte>)
    requires Plain(s)
    ensures var r := Scan(s, false, false); Params(r.out) == Words(s) && r.num == |Words(s)|
  {
    hide Params, Scan, Split;
    PlainScan(s, false);
    PlainCount(s, false);
    PlainParams(s);
  }

  // ----- Quoted lines -----

  /** A parameter as it is typed: a bare word, or any text between quotes. */
  datatype Item = Word(text: seq<Byte>) | Quoted(text: seq<Byte>)

  /** A line as it is typed: items with the spaces before each of them, and the spaces at the end. */
  datatype Line = End(spaces: nat) | Cons(spaces: nat, item: Item, rest: Line)

  predicate WellFormed(l: Line) {
    l.Cons? ==>
      && Plain(l.item.text) && (l.item.Word? ==> l.item.text != [] && SPACE !in l.item.text)
      && (l.rest.Cons? ==> 1 <= l.rest.spaces) && WellFormed(l.rest)
  }

  function Spaces(n: nat): (r: seq<Byte>)
    ensures |r| == n && forall i | 0 <= i < n :: r[i] == SPACE
  {
    seq(n, _ => SPACE)
  }

  function ItemText(item: Item): seq<Byte> {
    match item
    case Word(text) => text
    case Quoted(text) => [QUOTE] + (text + [QUOTE])
  }

  function Text(l: Line): seq<Byte> {
    match l
    case End(n) => Spaces(n)
    case Cons(n, item, rest) => Spaces(n) + (ItemText(item) + Text(rest))
  }

  function Items(l: Line): seq<seq<Byte>> {
    match l
    case End(_) => []
    case Cons(_, item, rest) => [item.text] + Items(rest)
  }

  /** `s` is over, or goes on with a space: what follows every item of a line. */
  predicate Apart(s: seq<Byte>) {
    s == [] || s[0] == SPACE
  }

  lemma ApartScan(s: seq<Byte>)
    requires Apart(s)
    ensures Scan(s, true, false) == Scan(s, false, false)
    ensures var out := Scan(s, false, false).out; out == [] || out[0] == 0
  {
  }

  lemma ScanSpace(s: seq<Byte>)
    requires s != [] && s[0] == SPACE
    ensures Scan(s, false, false) == Emit(0, Scan(s[1..], false, false))
  {
  }

  lemma {:induction false} ScanSpaces(n: nat, s: seq<Byte>)
    ensures Params(Scan(Spaces(n) + s, false, false).out) == Params(Scan(s, false, false).out)
    ensures Scan(Spaces(n) + s, false, false).num == Scan(s, false, false).num
  {
    hide Scan, Params;
    if n == 0 {
      assert Spaces(0) + s == s;
    } else {
      ScanSpaces(n - 1, s);
      assert Spaces(n)[1..] == Spaces(n - 1);
      assert (Spaces(n) + s)[1..] == Spaces(n - 1) + s;
      ScanSpace(Spaces(n) + s);
      ZeroFirst(Scan(Spaces(n - 1) + s, false, false).out);
    }
  }

  lemma ZeroFirst(s: seq<Byte>)
    ensures Params([0] + s) == Params(s)
  {
    assert ([0] + s)[1..] == s;
  }

  lemma ScanKept(s: seq<Byte>, quoted: bool)
    requires s != [] && s[0] != QUOTE && s[0] != BACKSLASH && (quoted || s[0] != SPACE)
    ensures Scan(s, true, quoted) == Emit(s[0], Scan(s[1..], true, quoted))
  {
  }

  /** Text without quotes and backslashes stays as it is inside a parameter, when it is quoted or has no spaces. */
  lemma {:induction false} ScanText(text: seq<Byte>, s: seq<Byte>, quoted: bool)
    requires Plain(text) && (quoted || SPACE !in text)
    ensures var r := Scan(s, true, quoted); Scan(text + s, true, quoted) == Scanned(text + r.out, r.num)
    decreases |text|
  {
    hide Scan;
    var r := Scan(s, true, quoted);
    if text == [] {
      assert text + s == s && text + r.out == r.out;
    } else {
      ScanText(text[1..], s, quoted);
      ScanKept(text + s, quoted);
      assert (text + s)[1..] == text[1..] + s;
      assert text + r.out == [text[0]] + (text[1..] + r.out);
    }
  }

  lemma {:induction false} RunOf(text: seq<Byte>, s: seq<Byte>)
    requires 0 !in text && (s == [] || s[0] == 0)
    ensures Run(text + s, 0) == |text|
  {
    if text == [] {
      assert text + s == s;
    } else {
      RunOf(text[1..], s);
      assert (text + s)[1..] == text[1..] + s;
    }
  }

  lemma ParamFirst(text: seq<Byte>, s: seq<Byte>)
    requires text != [] && 0 !in text && (s == [] || s[0] == 0)
    ensures Params(text + s) == [Unmarked(text)] + Params(s)
  {
    RunOf(text, s);
    assert (text + s)[..|text|] == text && (text + s)[|text|..] == s;
    assert Split(text + s, 0) == [text] + Split(s, 0);
  }

  lemma WordScan(text: seq<Byte>, s: seq<Byte>)
    requires Plain(text) && text != [] && SPACE !in text && Apart(s)
    ensures var r := Scan(text + s, false, false);
            Params(r.out) == [text] + Params(Scan(s, false, false).out) && r.num == 1 + Scan(s, false, false).num
  {
    hide Params, Split;
    ScanText(text, s, false);
    ApartScan(s);
    ParamFirst(text, Scan(s, false, false).out);
    assert Scan(text + s, false, false) == Counted(Scan(text + s, true, false));
  }

  lemma QuotedScan(text: seq<Byte>, s: seq<Byte>)
    requires Plain(text) && text != []
    ensures var r := Scan(ItemText(Quoted(text)) + s, false, false);
            Params(r.out) == [text] + Params(Scan(s, false, false).out) && r.num == 1 + Scan(s, false, false).num
  {
    hide Params, Split;
    var r := Scan(s, false, false);
    var inner := text + ([QUOTE] + s);
    ScanText(text, [QUOTE] + s, true);
    assert ([QUOTE] + s)[1..] == s;
    assert Scan(inner, true, true) == Scanned(text + ([0] + r.out), r.num);
    assert ItemText(Quoted(text)) + s == [QUOTE] + inner;
    assert ([QUOTE] + inner)[1..] == inner;
    ZeroFirst(text + ([0] + r.out));
    ParamFirst(text, [0] + r.out);
    ZeroFirst(r.out);
  }

  lemma EmptyScan(s: seq<Byte>)
    requires Apart(s)
    ensures var r := Scan(ItemText(Quoted([])) + s, false, false);
            Params(r.out) == [[]] + Params(Scan(s, false, false).out) && r.num == 1 + Scan(s, false, false).num
  {
    hide Params, Split;
    var r := Scan(s, false, false);
    var line := ItemText(Quoted([])) + s;
    ApartScan(s);
    assert line[1..] == [QUOTE] + s && line[1..][1..] == s;
    assert Scan(line, false, false).out == [EMPTY] + ([0] + r.out);
    ParamFirst([EMPTY], [0] + r.out);
    ZeroFirst(r.out);
    assert Unmarked([EMPTY]) == [];
  }

  lemma RestIsApart(l: Line)
    requires l.Cons? ==> 1 <= l.spaces
    ensures Apart(Text(l))
  {
  }

  /** Every well-formed line, quoted or not, is cut into exactly the texts typed, and they are counted. */
  lemma {:induction false} QuotedLine(l: Line)
    requires WellFormed(l)
    ensures var r := Scan(Text(l), false, false); Params(r.out) == Items(l) && r.num == |Items(l)|
  {
    hide Scan, Params, Split, ItemText;
    match l
    case End(n) =>
      ScanSpaces(n, []);
      assert Spaces(n) + [] == Spaces(n);
      EmptyLine();
    case Cons(n, item, rest) =>
      ScanSpaces(n, ItemText(item) + Text(rest));
      RestIsApart(rest);
      QuotedLine(rest);
      if item.Word? {
        WordIsItself(item);
        WordScan(item.text, Text(rest));
      } else if item.text == [] {
        EmptyScan(Text(rest));
      } else {
        QuotedScan(item.text, Text(rest));
      }
  }

  lemma EmptyLine()
    ensures Scan([], false, false) == Scanned([], 0) && Params([]) == []
  {
  }

  lemma WordIsItself(item: Item)
    requires item.Word?
    ensures ItemText(item) == item.text
  {
  }

  // ----- Escaped text -----

  /** A text with a backslash before each of its bytes. */
  function Escaped(text: seq<Byte>): seq<Byte> {
    if text == [] then [] else [BACKSLASH, text[0]] + Escaped(text[1..])
  }

  lemma EscapeStep(c: Byte, rest: seq<Byte>, looking: bool)
    ensures var r := Scan(rest, true, false);
            Scan([BACKSLASH, c] + rest, looking, false) == Scanned([c] + r.out, r.num + if looking then 0 else 1)
  {
    var s := [BACKSLASH, c] + rest;
    assert s[1..] == [c] + rest && s[1..][1..] == rest;
  }

  lemma {:induction false} EscapedScan(text: seq<Byte>, looking: bool)
    ensures Scan(Escaped(text), looking, false) == Scanned(text, if looking || text == [] then 0 else 1)
    decreases |text|
  {
    hide Scan;
    if text == [] {
      NothingScanned(looking);
    } else {
      EscapedScan(text[1..], true);
      EscapeStep(text[0], Escaped(text[1..]), looking);
      assert text == [text[0]] + text[1..];
    }
  }

  lemma NothingScanned(looking: bool)
    ensures Scan([], looking, false) == Scanned([], 0)
  {
  }

  /** Any text can be typed as one parameter by escaping it, with its spaces, quotes and backslashes. */
  lemma EscapedText(text: seq<Byte>)
    requires text != [] && 0 !in text && text[0] != EMPTY
    ensures var r := Scan(Escaped(text), false, false); Params(r.out) == [text] && r.num == 1
  {
    hide Scan, Split, Escaped;
    EscapedScan(text, false);
    ParamFirst(text, []);
    EmptyLine();
    assert text + [] == text;
  }
}
