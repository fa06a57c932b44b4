/** The command matcher of the console: the table command with the most words that begins the line, first on ties. */
module CommandMatch {
  import opened Tokenizer
  import opened ConsoleLine
  import opened TokenCount

  // ----- The words of a table command -----

  /** The parts of a name between single spaces, which may be empty. */
  function Parts(name: seq<Byte>): (r: seq<seq<Byte>>)
    ensures r != []
    decreases |name|
  {
    var n := Run(name, SPACE);
    if n == |name| then [name] else [name[..n]] + Parts(name[n + 1..])
  }

  predicate Prefix(s: seq<seq<Byte>>, t: seq<seq<Byte>>) {
    |s| <= |t| && forall k | 0 <= k < |s| :: s[k] == t[k]
  }

  /** A command matches a line of words when its parts begin the line; only the empty command matches the empty line. */
  predicate Matches(name: seq<Byte>, words: seq<seq<Byte>>) {
    if words == [] then name == [] else Prefix(Parts(name), words)
  }

  /** The number of parts that a match takes from the line. */
  function Taken(name: seq<Byte>, words: seq<seq<Byte>>): nat {
    if words == [] then 0 else |Parts(name)|
  }

  /** The words that the matcher can see: no more than it is told of, and no more than there are. */
  function Seen(words: seq<seq<Byte>>, numparams: nat): seq<seq<Byte>> {
    if numparams <= |words| then words[..numparams] else words
  }

  /** The matcher never asks for a word that is not there: it is told of no more than there are, or the command ends or
      differs before. */
  predicate Answers(name: seq<Byte>, words: seq<seq<Byte>>, numparams: nat) {
    numparams <= |words| || |Parts(name)| <= |words| || !Prefix(words, Parts(name))
  }

  /** `best` is the first of the matching commands that take the most words. */
  ghost predicate IsBest(names: seq<seq<Byte>>, words: seq<seq<Byte>>, best: Option<nat>) {
    match best
    case None => forall i | 0 <= i < |names| :: !Matches(names[i], words)
    case Some(m) =>
      && m < |names| && Matches(names[m], words)
      && forall i | 0 <= i < |names| && Matches(names[i], words) ::
           || Taken(names[i], words) < Taken(names[m], words)
           || (Taken(names[i], words) == Taken(names[m], words) && m <= i)
  }

  /** There is exactly one best command, or none. */
  lemma BestIsUnique(names: seq<seq<Byte>>, words: seq<seq<Byte>>, a: Option<nat>, b: Option<nat>)
    requires IsBest(names, words, a) && IsBest(names, words, b)
    ensures a == b
  {
    hide Matches, Taken;
    if a.Some? {
      assert Matches(names[a.value], words);
    }
    if b.Some? {
      assert Matches(names[b.value], words);
    }
  }

  /** Of several copies of the best command it is the first. */
  lemma FirstOfCopies(names: seq<seq<Byte>>, words: seq<seq<Byte>>, m: nat, i: nat)
    requires IsBest(names, words, Some(m)) && i < m
    ensures names[i] != names[m]
  {
    assert Matches(names[m], words);
  }

  function Join(parts: seq<seq<Byte>>): seq<Byte>
    requires parts != []
  {
    if |parts| == 1 then parts[0] else parts[0] + ([SPACE] + Join(parts[1..]))
  }

  lemma PartsUnfold(name: seq<Byte>)
    ensures var n := Run(name, SPACE);
            if n == |name| then Parts(name) == [name] else Parts(name) == [name[..n]] + Parts(name[n + 1..])
  {
  }

  lemma {:induction false} JoinParts(name: seq<Byte>)
    ensures Join(Parts(name)) == name
    decreases |name|
  {
    hide Parts, Run;
    var n := Run(name, SPACE);
    PartsUnfold(name);
    if n < |name| {
      var rest := Parts(name[n + 1..]);
      JoinParts(name[n + 1..]);
      JoinMore(name[..n], rest);
      assert name == name[..n] + ([SPACE] + name[n + 1..]);
    }
  }

  lemma JoinMore(first: seq<Byte>, rest: seq<seq<Byte>>)
    requires rest != []
    ensures Join([first] + rest) == first + ([SPACE] + Join(rest))
  {
    assert ([first] + rest)[1..] == rest;
  }

  /** Ties are only between copies of one command: being first never decides between different ones. */
  lemma TiesAreCopies(a: seq<Byte>, b: seq<Byte>, words: seq<seq<Byte>>)
    requires Matches(a, words) && Matches(b, words) && Taken(a, words) == Taken(b, words)
    ensures a == b
  {
    hide Parts;
    if words != [] {
      assert Parts(a) == Parts(b);
      JoinParts(a);
      JoinParts(b);
    }
  }

  // ----- The matcher -----

  /** Compares the string at `p` with `text`: the lengths first, then the bytes.  None is a string that does not end in
      the memory. */
  method SameString(buffer: array<Byte>, p: nat, text: seq<Byte>, ghost q: nat) returns (same: Option<bool>)
    requires Runs(buffer, p, q) && 0 !in text
    ensures same == None <==> q == buffer.Length
    ensures same.Some? ==> (same.value <==> buffer[p..q] == text)
  {
    var len := 0;
    while p + len < buffer.Length && buffer[p + len] != 0
      invariant p + len <= q
      decreases q - p - len
    {
      len := len + 1;
    }
    if p + len == buffer.Length {
      return None;
    }
    if len != |text| {
      return Some(false);
    }
    for k := 0 to len
      invariant forall i | 0 <= i < k :: buffer[p + i] == text[i]
    {
      if buffer[p + k] != text[k] {
        assert buffer[p..q][k] != text[k];
        return Some(false);
      }
    }
    return Some(true);
  }

  lemma PartMatches(all: seq<seq<Byte>>, words: seq<seq<Byte>>, part: nat, first: seq<Byte>, rest: seq<seq<Byte>>)
    requires part < |words| && words[part] == first && all == words[..part] + ([first] + rest)
    ensures all == words[..part + 1] + rest
  {
  }

  lemma PartDiffers(all: seq<seq<Byte>>, words: seq<seq<Byte>>, part: nat, first: seq<Byte>, rest: seq<seq<Byte>>)
    requires part <= |words| && all == words[..part] + ([first] + rest)
    requires part < |words| ==> words[part] != first
    ensures !Prefix(all, words)
  {
    assert all[part] == first;
  }

  lemma EndedIs(s: seq<Byte>)
    ensures var all := Params(s);
            if s != [] && s[|s| - 1] != 0 then all != [] && Ended(s) == all[..|all| - 1] else Ended(s) == all
  {
    hide Split;
    LastStretch(s);
  }

  /** Compares parameter `part` with a part of a table command; None if it cannot be found, or does not end. */
  method SameParam(buffer: array<Byte>, part: nat, text: seq<Byte>) returns (same: Option<bool>)
    requires 0 !in text
    ensures same.Some? <==> part < |Ended(buffer[..])|
    ensures same.Some? ==> (same.value <==> Ended(buffer[..])[part] == text)
  {
    hide Params, Ended;
    EndedIs(buffer[..]);
    var p := ConGetparam(buffer, part);
    if p == None {
      return None;
    }
    ghost var q :| p.value <= q <= buffer.Length && Runs(buffer, p.value, q)
                   && buffer[p.value..q] == Params(buffer[..])[part]
                   && (q == buffer.Length <==> part == |Params(buffer[..])| - 1 && buffer[buffer.Length - 1] != 0);
    same := SameString(buffer, p.value, text, q);
  }

  lemma PrefixItself(words: seq<seq<Byte>>, part: nat)
    requires part <= |words|
    ensures Prefix(words[..part], words)
  {
  }

  lemma PartsFrom(name: seq<Byte>, ptr: nat)
    requires ptr <= |name|
    ensures var len := Run(name[ptr..], SPACE);
            && ptr + len <= |name|
            && Parts(name[ptr..]) == [name[ptr..ptr + len]]
               + if ptr + len < |name| then Parts(name[ptr + len + 1..]) else []
  {
    hide Parts;
    var len := Run(name[ptr..], SPACE);
    PartsUnfold(name[ptr..]);
    assert name[ptr..][..len] == name[ptr..ptr + len];
    if ptr + len < |name| {
      assert name[ptr..][len + 1..] == name[ptr + len + 1..];
    } else {
      assert name[ptr..ptr + len] == name[ptr..];
    }
  }

  lemma SeenFits(words: seq<seq<Byte>>, numparams: nat)
    ensures |Seen(words, numparams)| <= numparams
  {
  }

  /** The outcome for one command: its parts match, or not, or the matcher asks for a word that it cannot find, and so
      leaves the memory. */
  datatype Verdict = Fits(parts: nat) | Differs | Leaves

  lemma Asked(name: seq<Byte>, all: seq<seq<Byte>>, numparams: nat, part: nat, first: seq<Byte>, rest: seq<seq<Byte>>)
    requires part < numparams && part <= |Seen(all, numparams)|
    requires Parts(name) == Seen(all, numparams)[..part] + ([first] + rest)
    ensures |all| <= part ==> !Answers(name, all, numparams)
    ensures part < |all| ==> part < |Seen(all, numparams)| && Seen(all, numparams)[part] == all[part]
    ensures part < |all| && all[part] != first ==> Answers(name, all, numparams)
  {
    hide Parts;
    if |all| <= part {
      assert Parts(name)[..part] == all;
    } else {
      assert Parts(name)[part] == first;
    }
  }

  lemma NotAsked(name: seq<Byte>, all: seq<seq<Byte>>, numparams: nat, part: nat)
    requires part <= |Seen(all, numparams)|
    ensures numparams <= part ==> Answers(name, all, numparams)
    ensures |Parts(name)| == part ==> Answers(name, all, numparams)
  {
    hide Parts, Prefix;
  }

  /** Whether the parts of a table command begin the words of the line, and how many there are. */
  method MatchParts(buffer: array<Byte>, numparams: nat, name: seq<Byte>) returns (r: Verdict)
    requires 0 !in name
    ensures r == Leaves <==> !Answers(name, Ended(buffer[..]), numparams)
    ensures r.Fits? ==> Prefix(Parts(name), Seen(Ended(buffer[..]), numparams)) && r.parts == |Parts(name)|
    ensures r == Differs ==> !Prefix(Parts(name), Seen(Ended(buffer[..]), numparams))
  {
    hide Parts, Params, Prefix, Answers, Seen, Ended;
    ghost var all := Ended(buffer[..]);
    ghost var words := Seen(all, numparams);
    var part, ptr := 0, 0;
    var matches, more := true, true;
    assert name[0..] == name && words[..0] + Parts(name) == Parts(name);
    while more
      invariant ptr <= |name| && part <= |words|
      invariant more ==> matches && Parts(name) == words[..part] + Parts(name[ptr..])
      invariant !more && matches ==> Parts(name) == words[..part]
      invariant !more && !matches ==> !Prefix(Parts(name), words) && Answers(name, all, numparams)
      decreases |name| - ptr, more
    {
      var len := Run(name[ptr..], SPACE);
      var first := name[ptr..ptr + len];
      ghost var rest := if ptr + len < |name| then Parts(name[ptr + len + 1..]) else [];
      PartsFrom(name, ptr);
      SeenFits(all, numparams);
      NotAsked(name, all, numparams, part);
      if part < numparams {
        Asked(name, all, numparams, part, first, rest);
        var same := SameParam(buffer, part, first);
        if same == None {
          return Leaves;
        }
        matches := same.value;
      } else {
        matches := false;
      }
      more := matches && ptr + len < |name|;
      if matches {
        PartMatches(Parts(name), words, part, first, rest);
        part := part + 1;
      } else {
        PartDiffers(Parts(name), words, part, first, rest);
      }
      if more {
        ptr := ptr + len + 1;
      }
    }
    if matches {
      PrefixItself(words, part);
      NotAsked(name, all, numparams, part);
      return Fits(part);
    }
    return Differs;
  }

  /** Whether one table command matches, and how many words it takes. */
  method MatchOne(buffer: array<Byte>, numparams: nat, name: seq<Byte>) returns (r: Verdict)
    requires 0 !in name
    ensures r == Leaves <==> !Answers(name, Ended(buffer[..]), numparams)
    ensures r.Fits? ==> && Matches(name, Seen(Ended(buffer[..]), numparams))
                        && r.parts == Taken(name, Seen(Ended(buffer[..]), numparams))
    ensures r == Differs ==> !Matches(name, Seen(Ended(buffer[..]), numparams))
  {
    hide Parts, Params, Prefix, Answers, Ended;
    NoneCounted(name, Ended(buffer[..]));
    if numparams == 0 {
      return if name == [] then Fits(0) else Differs;
    }
    r := MatchParts(buffer, numparams, name);
    if r != Leaves {
      SomeSeen(name, Ended(buffer[..]), numparams);
    }
  }

  lemma NoneCounted(name: seq<Byte>, words: seq<seq<Byte>>)
    ensures Answers(name, words, 0)
  {
  }

  lemma SomeSeen(name: seq<Byte>, words: seq<seq<Byte>>, numparams: nat)
    requires Answers(name, words, numparams) && 0 < numparams
    ensures Seen(words, numparams) != []
  {
    hide Parts;
  }

  /** The outcome for the whole table: the best command, if one matches, and the number of counted words left over; or
      some command asks for a word that cannot be found. */
  datatype Parsed = Beyond | Command(best: Option<nat>, left: nat)

  /** What the matcher answers when it is told of `numparams` words and can find `all`. */
  ghost predicate IsAnswer(names: seq<seq<Byte>>, all: seq<seq<Byte>>, numparams: nat, r: Parsed) {
    match r
    case Beyond => exists i | 0 <= i < |names| :: !Answers(names[i], all, numparams)
    case Command(best, left) =>
      && (forall i | 0 <= i < |names| :: Answers(names[i], all, numparams))
      && IsBest(names, Seen(all, numparams), best)
      && (best.Some? ==> left + Taken(names[best.value], Seen(all, numparams)) == numparams)
  }

  /** The whole table. */
  method ConParsecmd(buffer: array<Byte>, numparams: nat, names: seq<seq<Byte>>) returns (r: Parsed)
    requires forall i | 0 <= i < |names| :: 0 !in names[i]
    ensures IsAnswer(names, Ended(buffer[..]), numparams, r)
  {
    hide Matches, Taken, Params, Answers, Seen, Ended;
    ghost var all := Ended(buffer[..]);
    ghost var words := Seen(all, numparams);
    SeenFits(all, numparams);
    var best: Option<nat>, matchParts: int := None, -1;
    for i := 0 to |names|
      invariant forall j | 0 <= j < i :: Answers(names[j], all, numparams)
      invariant IsBest(names[..i], words, best)
      invariant best == None ==> matchParts == -1
      invariant best.Some? ==> matchParts == Taken(names[best.value], words) <= numparams
    {
      var one := MatchOne(buffer, numparams, names[i]);
      if one == Leaves {
        return Beyond;
      }
      if one.Fits? && one.parts > matchParts {
        best := Some(i);
        matchParts := one.parts;
        TakenFits(names[i], words);
      }
    }
    assert names[..|names|] == names;
    return Command(best, if best.Some? then numparams - matchParts else 0);
  }

  lemma TakenFits(name: seq<Byte>, words: seq<seq<Byte>>)
    requires Matches(name, words)
    ensures Taken(name, words) <= |words|
  {
  }

  // ----- From the typed line to the command -----

  /** The words that the matcher finds after a line is tokenised: those of the line, and then what earlier lines left
      behind it in the memory. */
  function Findable(line: seq<Byte>, stale: seq<Byte>): seq<seq<Byte>> {
    Params(Scan(line, false, false).out) + Ended(stale)
  }

  /** Any line, with anything behind it in the memory, gives the best command for the words that are counted, in the
      order in which they are found; unless none is counted: then no command is looked for. */
  method ParseAny(buffer: array<Byte>, ghost line: seq<Byte>, names: seq<seq<Byte>>) returns (num: nat, r: Parsed)
    requires Holds(buffer, 0, |line|) && buffer[..|line|] == line
    requires forall i | 0 <= i < |names| :: 0 !in names[i]
    modifies buffer
    ensures num == Scan(line, false, false).num
    ensures if num == 0 then r == Command(None, 0)
            else IsAnswer(names, Findable(line, old(buffer[|line| + 1..])), num, r)
  {
    hide IsAnswer, Params, Scan, Ended;
    num := ConNullify(buffer, |line|);
    ghost var n, stale := |Scan(line, false, false).out|, old(buffer[|line| + 1..]);
    assert buffer[|line| + 1..] == stale;
    assert buffer[..] == buffer[..n] + buffer[n..|line| + 1] + buffer[|line| + 1..];
    EndedAfter(buffer[..n], buffer[n..|line| + 1], stale);
    if num == 0 {
      return num, Command(None, 0);
    }
    r := ConParsecmd(buffer, num, names);
  }

  /** With no more parameters lost than extra, only words of the line are seen, and none is asked for in vain. */
  lemma LineAnswers(line: seq<Byte>, stale: seq<Byte>, names: seq<seq<Byte>>, num: nat, r: Parsed)
    requires 0 !in line && num == Scan(line, false, false).num && Lost(line, Between) <= Extra(line, Between)
    requires IsAnswer(names, Findable(line, stale), num, r)
    ensures var words := Params(Scan(line, false, false).out);
            && num <= |words| && r.Command? && IsBest(names, words[..num], r.best)
            && (r.best.Some? ==> r.left + Taken(names[r.best.value], words[..num]) == num)
  {
    hide Params, Scan, Ended, Lost, Extra, IsBest, Taken, Parts, Prefix;
    CountAgainstFound(line);
    assert Seen(Findable(line, stale), num) == Params(Scan(line, false, false).out)[..num];
  }

  /** On a well-formed line these are exactly the words typed. */
  method ParseLine(buffer: array<Byte>, ghost line: Line, names: seq<seq<Byte>>) returns (num: nat, r: Parsed)
    requires WellFormed(line) && |Text(line)| < buffer.Length
    requires buffer[..|Text(line)|] == Text(line) && buffer[|Text(line)|] == 0
    requires forall i | 0 <= i < |names| :: 0 !in names[i]
    modifies buffer
    ensures num == |Items(line)| && r.Command?
    ensures if num == 0 then r.best == None else IsBest(names, Items(line), r.best)
    ensures r.best.Some? ==> r.left + Taken(names[r.best.value], Items(line)) == num
  {
    hide IsBest, IsAnswer, Taken, Params, Scan, Findable, Ended, WellFormed, Items, Lost, Extra;
    NoZeros(line);
    assert forall k | 0 <= k < |Text(line)| :: Text(line)[k] == buffer[k];
    QuotedLine(line);
    CountAgainstFound(Text(line));
    ghost var stale := buffer[|Text(line)| + 1..];
    num, r := ParseAny(buffer, Text(line), names);
    if num != 0 {
      LineAnswers(Text(line), stale, names, num, r);
      assert Items(line)[..num] == Items(line);
    }
  }

  /** A word, a letter here, and an empty quotation right after it. */
  function Quotation(c: Byte): seq<Byte> {
    [c, QUOTE, QUOTE]
  }

  lemma QuotationScan(c: Byte)
    requires Plain([c]) && c != SPACE
    ensures var r := Scan(Quotation(c), false, false); r.num == 2 && Params(r.out) == [[c]]
  {
    hide Split;
    var s := Quotation(c);
    assert s[1..] == [QUOTE, QUOTE] && s[1..][1..] == [QUOTE] && s[1..][1..][1..] == [];
    assert Scan([QUOTE], true, true) == Scanned([0], 0);
    assert Scan([QUOTE, QUOTE], true, false) == Scanned([0, 0], 1);
    assert Scan(s, false, false).out == [c] + [0, 0];
    ParamFirst([c], [0, 0]);
    assert [0, 0] == [0] + ([0] + []);
    ZeroFirst([0] + []);
    ZeroFirst([]);
    EmptyLine();
  }

  lemma OneEnded(d: Byte)
    requires Plain([d])
    ensures Ended([d, 0]) == [[d]] && Ended([]) == []
  {
    hide Split;
    ParamFirst([d], [0]);
    assert [d, 0] == [d] + [0] && [0] == [0] + [];
    ZeroFirst([]);
    EmptyLine();
  }

  lemma TwoParts(c: Byte, d: Byte)
    requires Plain([c]) && c != SPACE && Plain([d]) && d != SPACE
    ensures Parts([c, SPACE, d]) == [[c], [d]]
  {
    var name := [c, SPACE, d];
    assert name[1..] == [SPACE, d] && name[2..] == [d] && [d][1..] == [];
    assert Run([SPACE, d], SPACE) == 0 && Run(name, SPACE) == 1 && name[..1] == [c];
    assert Run([d], SPACE) == 1;
  }

  /** With a parameter lost, the matcher takes a word that an earlier line left behind, or leaves the memory. */
  lemma StaleWord(c: Byte, d: Byte)
    requires Plain([c]) && c != SPACE && Plain([d]) && d != SPACE
    ensures var line, name := Quotation(c), [c, SPACE, d];
            && Scan(line, false, false).num == 2
            && IsAnswer([name], Findable(line, [d, 0]), 2, Command(Some(0), 0))
            && IsAnswer([name], Findable(line, []), 2, Beyond)
  {
    hide Scan, Params, Parts, Ended;
    var line, name := Quotation(c), [c, SPACE, d];
    QuotationScan(c);
    OneEnded(d);
    TwoParts(c, d);
    assert Findable(line, [d, 0]) == [[c], [d]] && Findable(line, []) == [[c]];
    assert Seen([[c], [d]], 2) == [[c], [d]];
    assert [name][0] == name;
    assert !Answers(name, [[c]], 2);
  }

  lemma {:induction false} NoZeros(line: Line)
    requires WellFormed(line)
    ensures 0 !in Text(line)
  {
    match line
    case End(_) =>
    case Cons(n, item, rest) =>
      NoZeros(rest);
      assert 0 !in Spaces(n) && 0 !in item.text;
      assert 0 !in ItemText(item);
  }
}
