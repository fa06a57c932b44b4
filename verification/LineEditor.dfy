/** The line editor of the console: keys fill a buffer of 128 bytes through a pointer that may run past its end. */
module LineEditor {

  type Byte = x: int | 0 <= x < 256

  const CON_CMD_SIZE: nat := 128
  const BACKSPACE: Byte := 0x08
  const NEWLINE: Byte := 0x0A
  const RETURN: Byte := 0x0D
  const CLEAR_LINE: Byte := 0x15
  const ESCAPE: Byte := 0x1B
  const SPACE: Byte := 0x20
  const DELETE: Byte := 0x7F

  // ----- Editing a list -----

  /** A line being typed, of any length; whether a return was seen last; how many keys of an escape are still to
      skip. */
  datatype Edit = Edit(line: seq<Byte>, sawReturn: bool, skip: nat)

  datatype Outcome = Pending | Accepted | TooLong

  function AfterKey(line: seq<Byte>, key: Byte): seq<Byte> {
    if key == BACKSPACE || key == DELETE then if line == [] then [] else line[..|line| - 1]
    else if key == CLEAR_LINE then []
    else if key >= SPACE && key != ESCAPE then line + [key]
    else line
  }

  predicate EndsLine(e: Edit, key: Byte) {
    e.skip == 0 && (key == RETURN || (key == NEWLINE && !e.sawReturn))
  }

  function Next(e: Edit, key: Byte): Edit {
    if e.skip > 0 then e.(skip := e.skip - 1)
    else if EndsLine(e, key) then e.(sawReturn := e.sawReturn || key == RETURN)
    else if key == NEWLINE then e.(sawReturn := false)
    else Edit(AfterKey(e.line, key), false, if key == ESCAPE then 2 else 0)
  }

  function Result(e: Edit, key: Byte): Outcome {
    if !EndsLine(e, key) then Pending else if |e.line| < CON_CMD_SIZE then Accepted else TooLong
  }

  function Keys(e: Edit, keys: seq<Byte>): Edit
    decreases |keys|
  {
    if keys == [] then e else Next(Keys(e, keys[..|keys| - 1]), keys[|keys| - 1])
  }

  const FRESH: Edit := Edit([], false, 0)

  // ----- The buffer -----

  class Editor {
    const command: array<Byte>
    var cmdptr: nat
    var sawcr: bool
    var sawesc: nat
    ghost var typed: seq<Byte>

    constructor ()
      ensures fresh(command) && Valid() && View() == FRESH
    {
      command := new Byte[CON_CMD_SIZE](_ => 0);
      cmdptr, sawcr, sawesc, typed := 0, false, 0, [];
    }

    /** The buffer holds the line as far as it fits, and the pointer its whole length. */
    ghost predicate Valid()
      reads this, command
    {
      && command.Length == CON_CMD_SIZE && cmdptr == |typed|
      && forall i | 0 <= i < cmdptr && i < CON_CMD_SIZE :: command[i] == typed[i]
    }

    ghost function View(): Edit
      reads this
    {
      Edit(typed, sawcr, sawesc)
    }

    method Delete()
      requires Valid()
      modifies this`cmdptr, this`typed
      ensures Valid() && typed == AfterKey(old(typed), BACKSPACE)
    {
      if cmdptr > 0 {
        cmdptr := cmdptr - 1;
        typed := typed[..cmdptr];
      }
    }

    method Clear()
      requires Valid()
      modifies this`cmdptr, this`typed, command
      ensures Valid() && typed == []
    {
      cmdptr := 0;
      command[0] := 0;
      typed := [];
    }

    method Append(data: Byte)
      requires Valid()
      modifies this`cmdptr, this`typed, command
      ensures Valid() && typed == old(typed) + [data]
    {
      if cmdptr < CON_CMD_SIZE {
        command[cmdptr] := data;
      }
      cmdptr := cmdptr + 1;
      typed := typed + [data];
    }

    /** One key.  An accepted line stands in the buffer with a zero after it. */
    method InputString(data: Byte) returns (outcome: Outcome)
      requires Valid()
      modifies this, command
      ensures Valid() && View() == Next(old(View()), data) && outcome == Result(old(View()), data)
      ensures outcome == Accepted ==> |typed| < CON_CMD_SIZE && command[..|typed|] == typed && command[|typed|] == 0
    {
      outcome := Pending;
      if sawesc > 0 {
        sawesc := sawesc - 1;
        return;
      } else if data == RETURN || (data == NEWLINE && !sawcr) {
        if data == RETURN {
          sawcr := true;
        }
        if cmdptr < CON_CMD_SIZE {
          command[cmdptr] := 0;
        } else {
          return TooLong;
        }
        return Accepted;
      } else if data == NEWLINE && sawcr {
        sawcr := false;
        return;
      } else if sawcr {
        sawcr := false;
      }
      if data == BACKSPACE || data == DELETE {
        Delete();
      } else if data == ESCAPE {
        sawesc := 2;
      } else if data == CLEAR_LINE {
        Clear();
      } else if data >= SPACE {
        Append(data);
      }
    }

    /** A whole run of keys. */
    method Type(keys: seq<Byte>)
      requires Valid()
      modifies this, command
      ensures Valid() && View() == Keys(old(View()), keys)
    {
      for i := 0 to |keys|
        invariant Valid() && View() == Keys(old(View()), keys[..i])
      {
        var _ := InputString(keys[i]);
        assert keys[..i + 1][..i] == keys[..i];
      }
      assert keys[..|keys|] == keys;
    }
  }

  // ----- What the keys do -----

  /** A key that stands for itself. */
  predicate Printable(key: Byte) {
    key >= SPACE && key != DELETE
  }

  lemma {:induction false} KeysAppend(e: Edit, keys: seq<Byte>, more: seq<Byte>)
    ensures Keys(e, keys + more) == Keys(Keys(e, keys), more)
    decreases |more|
  {
    if more == [] {
      assert keys + more == keys;
    } else {
      KeysAppend(e, keys, more[..|more| - 1]);
      assert (keys + more)[..|keys + more| - 1] == keys + more[..|more| - 1];
    }
  }

  lemma {:induction false} TypingAppends(e: Edit, keys: seq<Byte>)
    requires e.skip == 0 && forall i | 0 <= i < |keys| :: Printable(keys[i])
    ensures Keys(e, keys) == Edit(e.line + keys, e.sawReturn && keys == [], 0)
  {
    if keys == [] {
      assert e.line + keys == e.line;
    } else {
      var k := |keys| - 1;
      TypingAppends(e, keys[..k]);
      assert keys == keys[..k] + [keys[k]];
    }
  }

  /** Whatever is typed is taken back by as many backspaces, even beyond the end of the buffer. */
  lemma BackspacesUndo(e: Edit, keys: seq<Byte>)
    requires e.skip == 0 && forall i | 0 <= i < |keys| :: Printable(keys[i])
    ensures Keys(Keys(e, keys), seq(|keys|, _ => BACKSPACE)).line == e.line
  {
    TypingAppends(e, keys);
    Erase(Keys(e, keys), |keys|);
    assert (e.line + keys)[..|e.line|] == e.line;
  }

  lemma {:induction false} Erase(e: Edit, n: nat)
    requires e.skip == 0 && n <= |e.line|
    ensures var e' := Keys(e, seq(n, _ => BACKSPACE)); e'.line == e.line[..|e.line| - n] && e'.skip == 0
  {
    if n == 0 {
      assert e.line[..|e.line|] == e.line;
    } else {
      var keys := seq(n, _ => BACKSPACE);
      Erase(e, n - 1);
      assert keys[..n - 1] == seq(n - 1, _ => BACKSPACE);
    }
  }

  /** An escape and any two keys after it, whatever they are, leave the line as it is. */
  lemma EscapeSkipsTwo(e: Edit, a: Byte, b: Byte)
    requires e.skip == 0
    ensures Keys(e, [ESCAPE, a, b]) == Edit(e.line, false, 0)
  {
    assert [ESCAPE, a, b][..2] == [ESCAPE, a] && [ESCAPE, a][..1] == [ESCAPE];
    assert Keys(e, [ESCAPE]) == Edit(e.line, false, 2);
    assert Keys(e, [ESCAPE, a]) == Edit(e.line, false, 1);
  }

  /** The clear key starts the line afresh: everything before it is forgotten, unless an escape swallows it. */
  lemma ClearForgets(e: Edit, keys: seq<Byte>)
    requires e.skip == 0 && forall i | 0 <= i < |keys| :: Printable(keys[i])
    ensures Keys(e, [CLEAR_LINE] + keys).line == keys
  {
    KeysAppend(e, [CLEAR_LINE], keys);
    assert Keys(e, [CLEAR_LINE]) == Edit([], false, 0);
    TypingAppends(Edit([], false, 0), keys);
  }

  /** A typed line is accepted by return if and only if it is shorter than the buffer, and the newline that may follow
      the return ends no second line. */
  lemma LineAcceptedIff(keys: seq<Byte>)
    requires forall i | 0 <= i < |keys| :: Printable(keys[i])
    ensures var e := Keys(FRESH, keys);
            && e.line == keys && (Result(e, RETURN) == Accepted <==> |keys| < CON_CMD_SIZE)
            && (Result(e, RETURN) == TooLong <==> CON_CMD_SIZE <= |keys|)
            && Result(Next(e, RETURN), NEWLINE) == Pending
  {
    TypingAppends(FRESH, keys);
  }

  // ----- Any keys at all -----

  /** The keys that are heeded: an escape swallows the two after it. */
  function Heeded(keys: seq<Byte>): seq<Byte>
    decreases |keys|
  {
    if keys == [] then []
    else if keys[0] != 0x1B then [keys[0]] + Heeded(keys[1..])
    else if |keys| < 3 then [0x1B]
    else [0x1B] + Heeded(keys[3..])
  }

  /** How many of the next keys an escape will still swallow. */
  function Swallowed(keys: seq<Byte>): nat
    decreases |keys|
  {
    if keys == [] then 0
    else if keys[0] != 0x1B then Swallowed(keys[1..])
    else if |keys| < 3 then 3 - |keys|
    else Swallowed(keys[3..])
  }

  /** The text that heeded keys leave: backspace and delete take a byte off, control-U all, and bytes from the space on
      stand for themselves. */
  function Written(keys: seq<Byte>): seq<Byte> {
    if keys == [] then []
    else
      var t, key := Written(keys[..|keys| - 1]), keys[|keys| - 1];
      if key == 0x08 || key == 0x7F then t[..if t == [] then 0 else |t| - 1]
      else if key == 0x15 then []
      else if key >= 0x20 then t + [key]
      else t
  }

  predicate JustReturned(heeded: seq<Byte>) {
    heeded != [] && heeded[|heeded| - 1] == 0x0D
  }

  lemma {:induction false} OneKeyMore(keys: seq<Byte>, key: Byte)
    ensures Heeded(keys + [key]) == if Swallowed(keys) == 0 then Heeded(keys) + [key] else Heeded(keys)
    ensures Swallowed(keys + [key])
            == if Swallowed(keys) != 0 then Swallowed(keys) - 1 else if key == 0x1B then 2 else 0
    decreases |keys|
  {
    var all := keys + [key];
    if keys == [] {
      assert all == [key] && all[1..] == [];
    } else if keys[0] != 0x1B {
      OneKeyMore(keys[1..], key);
      assert all[1..] == keys[1..] + [key];
    } else if 3 <= |keys| {
      OneKeyMore(keys[3..], key);
      assert all[3..] == keys[3..] + [key];
    } else if |keys| == 2 {
      assert all[3..] == [];
    }
  }

  lemma NextIsMeant(heeded: seq<Byte>, key: Byte)
    ensures Next(Edit(Written(heeded), JustReturned(heeded), 0), key)
            == Edit(Written(heeded + [key]), key == 0x0D, if key == 0x1B then 2 else 0)
  {
    assert (heeded + [key])[..|heeded|] == heeded;
  }

  /** The editor after any keys whatever: the text they leave, whether the last one heeded was a return, and how many
      keys it will not heed. */
  lemma {:induction false} KeysMeant(keys: seq<Byte>)
    ensures Keys(FRESH, keys) == Edit(Written(Heeded(keys)), JustReturned(Heeded(keys)), Swallowed(keys))
    decreases |keys|
  {
    hide Next, Written;
    if keys == [] {
      NothingWritten();
    } else {
      var before, key := keys[..|keys| - 1], keys[|keys| - 1];
      KeysMeant(before);
      OneKeyMore(before, key);
      assert before + [key] == keys;
      if Swallowed(before) == 0 {
        NextIsMeant(Heeded(before), key);
      } else {
        SwallowOne(Keys(FRESH, before), key);
      }
    }
  }

  lemma NothingWritten()
    ensures Written([]) == []
  {
  }

  lemma SwallowOne(e: Edit, key: Byte)
    requires e.skip != 0
    ensures Next(e, key) == e.(skip := e.skip - 1)
  {
  }

  /** After any keys, a further one ends the line if and only if it is heeded and is a return, or a newline not right
      after a return; the line is accepted if and only if it has fewer than 128 bytes. */
  lemma OutcomeMeant(keys: seq<Byte>, key: Byte)
    ensures var ends := Swallowed(keys) == 0 && (key == 0x0D || (key == 0x0A && !JustReturned(Heeded(keys))));
            Result(Keys(FRESH, keys), key)
            == if !ends then Pending else if |Written(Heeded(keys))| < 128 then Accepted else TooLong
  {
    hide Keys, Heeded, Written, JustReturned;
    KeysMeant(keys);
  }
}
