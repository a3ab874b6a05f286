/** main's read-parse-dispatch loop: the 256-character line buffer, the
    newline strip written into it, strtok's saved position, the args[3]
    slots, and the loop over the lines that fgets returns. */
module Shell {
  import opened CStrings
  import opened Tokenizer
  import opened Commands
  import Permissions

  /** Size of main's command buffer. */
  const BufferSize: nat := 256

  /** The longest line fgets stores: one place is kept for the terminator. */
  const MaxLine: nat := BufferSize - 1

  /** The characters at which main's strip cuts a line: the newline it asks
      strcspn for, and the terminator at which every C string ends. */
  const LineEnds: set<char> := {'\n', NUL}

  /** The text main hands to strtok for a line fgets returned: the line up
      to, not including, its first newline (or first NUL, where the C string
      ends). */
  function Chomp(line: seq<char>): (r: seq<char>)
    ensures |r| <= |line| && r == line[..|r|]
    ensures NUL !in r && '\n' !in r
    ensures |r| < |line| ==> line[|r|] == '\n' || line[|r|] == NUL
  {
    PrefixBefore(line, LineEnds)
  }

  /** The decision main takes for one line. */
  function DecideLine(line: seq<char>): Command
  {
    Decide(Split(Chomp(line)))
  }

  /** The decision for each line, in order; each depends on its own line only. */
  function DecideLines(lines: seq<seq<char>>): seq<Command>
  {
    seq(|lines|, k requires 0 <= k < |lines| => DecideLine(lines[k]))
  }

  /** The decisions that are not blank, in their original order. */
  function NonBlank(cs: seq<Command>): (r: seq<Command>)
    ensures |r| <= |cs|
  {
    if cs == [] then []
    else
      var last := cs[|cs| - 1];
      NonBlank(cs[..|cs| - 1]) + (if last.Blank? then [] else [last])
  }

  /** The decisions main takes for lines: one per line that has a first
      token, in input order; blank lines contribute nothing. */
  function Decisions(lines: seq<seq<char>>): seq<Command>
  {
    NonBlank(DecideLines(lines))
  }

  /** Deciding one more line adds its decision unless it is blank. */
  lemma NonBlankSnoc(cs: seq<Command>, c: Command)
    ensures NonBlank(cs + [c]) == NonBlank(cs) + (if c.Blank? then [] else [c])
  {
    assert (cs + [c])[..|cs|] == cs;
  }

  /** A decision is kept exactly when it is not blank. */
  lemma {:induction false} NonBlankMembers(cs: seq<Command>, c: Command)
    ensures c in NonBlank(cs) <==> c in cs && !c.Blank?
  {
    if cs != [] {
      var init := cs[..|cs| - 1];
      NonBlankMembers(init, c);
      assert cs == init + [cs[|cs| - 1]];
    }
  }

  /** Filtering distributes over concatenation, so the decisions for a run of
      lines are those for its first part followed by those for the rest. */
  lemma {:induction false} NonBlankAppend(xs: seq<Command>, ys: seq<Command>)
    ensures NonBlank(xs + ys) == NonBlank(xs) + NonBlank(ys)
    decreases |ys|
  {
    if ys == [] {
      assert xs + ys == xs;
    } else {
      var zs, init := xs + ys, ys[..|ys| - 1];
      assert zs[..|zs| - 1] == xs + init;
      NonBlankAppend(xs, init);
    }
  }

  /** Lines are decided one at a time: what an earlier line left in the
      buffers (stale slots, overwritten delimiters) never affects a later one. */
  lemma DecisionsAppend(xs: seq<seq<char>>, ys: seq<seq<char>>)
    ensures Decisions(xs + ys) == Decisions(xs) + Decisions(ys)
  {
    assert DecideLines(xs + ys) == DecideLines(xs) + DecideLines(ys);
    NonBlankAppend(DecideLines(xs), DecideLines(ys));
  }

  /** A line that is empty, all spaces or just a newline is skipped silently. */
  lemma BlankLineSkipped(line: seq<char>)
    requires forall k :: 0 <= k < |Chomp(line)| ==> Chomp(line)[k] == Space
    ensures DecideLine(line) == Blank
  {
    SplitBlank(Chomp(line));
  }

  /** A chmod decision hands the second and third tokens of the line to
      change_permissions, which refuses a mode that is not three characters
      long before chmod is reached. */
  lemma ChmodLine(line: seq<char>)
    requires DecideLine(line).Chmod?
    ensures var toks := Split(Chomp(line));
            |toks| == MaxTokens && toks[0] == "chmod" &&
            DecideLine(line) == Chmod(toks[1], toks[2]) &&
            (Permissions.ChangePermissions(toks[1], toks[2]).FormatError? <==> |toks[1]| != Permissions.ModeLength)
  {
    DecideCases(Split(Chomp(line)));
  }

  /** A pointer to buf[p] addresses the token t: t is stored from p on and
      ended by NUL, and holds no space. */
  predicate TokenAt(buf: seq<char>, p: nat, t: seq<char>)
  {
    Space !in t && p + |t| < |buf| &&
    (forall m :: 0 <= m < |t| ==> buf[p + m] == t[m]) &&
    buf[p + |t|] == NUL
  }

  /** A space-free stretch of buf that ends at a NUL is a token there. */
  lemma SliceTokenAt(buf: seq<char>, b: nat, e: nat)
    requires b <= e < |buf| && buf[e] == NUL && Space !in buf[b..e]
    ensures TokenAt(buf, b, buf[b..e])
  {
  }

  /** after is before with some spaces overwritten by NUL, the only write strtok makes. */
  predicate CutsSpaces(before: seq<char>, after: seq<char>)
  {
    |after| == |before| &&
    forall k :: 0 <= k < |before| ==> after[k] == before[k] || (before[k] == Space && after[k] == NUL)
  }

  /** The buffer after one strtok call that resumes at pos in text: the
      space that ends the next token, if any, becomes NUL; nothing else changes. */
  function CutAfter(buf: seq<char>, text: seq<char>, pos: nat): seq<char>
    requires pos <= |text| < |buf|
  {
    var e := TokenEnd(text, SkipDelims(text, pos));
    if e < |text| then buf[e := NUL] else buf
  }

  /** Overwriting one space with NUL is such a cut. */
  lemma CutOne(buf: seq<char>, e: nat)
    requires e < |buf| && buf[e] == Space
    ensures CutsSpaces(buf, buf[e := NUL])
  {
  }

  /** Leaving the buffer alone is such a cut too. */
  lemma CutNone(buf: seq<char>)
    ensures CutsSpaces(buf, buf)
  {
  }

  /** Cutting spaces leaves every token in place: its characters are not
      spaces and its terminator is NUL, so none of them is overwritten. */
  lemma TokenAtKept(before: seq<char>, after: seq<char>, p: nat, t: seq<char>)
    requires TokenAt(before, p, t) && CutsSpaces(before, after)
    ensures TokenAt(after, p, t)
  {
    forall m | 0 <= m < |t|
      ensures after[p + m] == t[m]
    {
      assert before[p + m] == t[m] && t[m] in t;
    }
  }

  /** The first n slots that hold a token each address it in buf, the
      token of slot j starting at starts[j]. */
  predicate AllAt(buf: seq<char>, slots: seq<Slot>, starts: seq<nat>, n: nat)
    requires n <= |slots| && n <= |starts|
  {
    forall j :: 0 <= j < n && slots[j].Ptr? ==> TokenAt(buf, starts[j], slots[j].text)
  }

  /** Cutting spaces keeps every addressed token in place. */
  lemma AllAtKept(before: seq<char>, after: seq<char>, slots: seq<Slot>, starts: seq<nat>, n: nat)
    requires n <= |slots| && n <= |starts|
    requires AllAt(before, slots, starts, n) && CutsSpaces(before, after)
    ensures AllAt(after, slots, starts, n)
  {
    forall j | 0 <= j < n && slots[j].Ptr?
      ensures TokenAt(after, starts[j], slots[j].text)
    {
      TokenAtKept(before, after, starts[j], slots[j].text);
    }
  }

  /** Writing slot n with a token addressed at p extends the addressed slots by one. */
  lemma AllAtExtend(buf: seq<char>, slots: seq<Slot>, starts: seq<nat>, n: nat, slot: Slot, p: nat)
    requires n < |slots| && n < |starts|
    requires AllAt(buf, slots, starts, n)
    requires slot.Ptr? ==> TokenAt(buf, p, slot.text)
    ensures AllAt(buf, slots[n := slot], starts[n := p], n + 1)
  {
  }

  /** Slot j points at toks[j], stored in buf from starts[j] on, for every token. */
  predicate PointsInto(buf: seq<char>, slots: seq<Slot>, starts: seq<nat>, toks: seq<seq<char>>)
    requires |toks| <= |slots| && |toks| <= |starts|
  {
    forall j :: 0 <= j < |toks| ==> slots[j] == Ptr(toks[j]) && TokenAt(buf, starts[j], toks[j])
  }

  /** Once the slots hold the tokens of a line (then NULL), every token
      of the line is addressed in buf. */
  lemma AllAtTokens(buf: seq<char>, slots: seq<Slot>, starts: seq<nat>, last: nat, toks: seq<seq<char>>)
    requires last < MaxTokens && |starts| == MaxTokens && Holds(slots, toks)
    requires last < MaxTokens - 1 ==> slots[last] == Null
    requires AllAt(buf, slots, starts, last + 1)
    ensures PointsInto(buf, slots, starts, toks)
  {
    forall j | 0 <= j < |toks|
      ensures TokenAt(buf, starts[j], toks[j])
    {
      assert slots[j] == Ptr(toks[j]);
    }
  }

  /** What strtok returns for a scan: NULL or a pointer to the token. */
  function Returned(r: Scan): Slot
  {
    match r
    case NoToken(_) => Null
    case Token(t, _) => Ptr(t)
  }

  /** The slots main's tokenizer statements leave when call i of strtok
      resumes at pos on s: its result goes to args[i], and the loop goes on
      while that result is a token and i < 2. */
  function Fill(args: seq<Slot>, s: seq<char>, pos: nat, i: nat): seq<Slot>
    requires |args| == MaxTokens && i < MaxTokens && pos <= |s|
    decreases MaxTokens - i
  {
    var r := NextToken(s, pos);
    var filled := args[i := Returned(r)];
    if r.Token? && i < MaxTokens - 1 then Fill(filled, s, r.next, i + 1) else filled
  }

  /** From call i on, the slots receive the tokens of the remaining calls, then
      NULL if there is room; the slots before i and those after the NULL keep
      their contents. */
  /** Where each token that the calls from i on return starts in s: the
      position strtok's pointer addresses, recorded slot by slot alongside
      Fill. */
  function Starts(starts: seq<nat>, s: seq<char>, pos: nat, i: nat): (r: seq<nat>)
    requires |starts| == MaxTokens && i < MaxTokens && pos <= |s|
    ensures |r| == MaxTokens && r[i] == SkipDelims(s, pos)
    ensures forall k :: 0 <= k < i ==> r[k] == starts[k]
    decreases MaxTokens - i
  {
    var r := NextToken(s, pos);
    var recorded := starts[i := SkipDelims(s, pos)];
    if r.Token? && i < MaxTokens - 1 then Starts(recorded, s, r.next, i + 1) else recorded
  }

  /** On "ab ab" the pointers address positions 0 and 3; the third call
      records the end, where it finds no token. */
  lemma StartsExample()
    ensures Starts([0, 0, 0], "ab ab", 0, 0) == [0, 3, 5]
  {
  }

  lemma {:induction false} FillSplit(args: seq<Slot>, s: seq<char>, pos: nat, i: nat)
    requires |args| == MaxTokens && i < MaxTokens && pos <= |s|
    ensures var f, t := Fill(args, s, pos, i), SplitFrom(s, pos, MaxTokens - i);
            |f| == MaxTokens &&
            (forall k :: 0 <= k < i ==> f[k] == args[k]) &&
            (forall k :: 0 <= k < |t| ==> f[i + k] == Ptr(t[k])) &&
            (i + |t| < MaxTokens ==> f[i + |t|] == Null) &&
            (forall k :: i + |t| < k < MaxTokens ==> f[k] == args[k])
    decreases MaxTokens - i
  {
    var r := NextToken(s, pos);
    var filled := args[i := Returned(r)];
    if r.Token? && i < MaxTokens - 1 {
      FillSplit(filled, s, r.next, i + 1);
    }
  }

  /** The slots main's tokenizer leaves for a line hold its tokens, then NULL
      when there are fewer than three; a slot after that NULL keeps what it
      held before. */
  lemma FillHolds(args: seq<Slot>, s: seq<char>)
    requires |args| == MaxTokens
    ensures Holds(Fill(args, s, 0, 0), Split(s))
    ensures forall k :: |Split(s)| < k < MaxTokens ==> Fill(args, s, 0, 0)[k] == args[k]
  {
    FillSplit(args, s, 0, 0);
  }

  /** Main's buffers and strtok's hidden state. */
  class Shell {
    /** char command[256] */
    const command: array<char>
    /** char *args[3] */
    const args: array<Slot>
    /** strtok's saved position in command */
    var save: nat
    /** The C string strtok was started on. */
    ghost var text: seq<char>

    ghost predicate Valid()
      reads this
    {
      command.Length == BufferSize && args.Length == MaxTokens
    }

    /** strtok is mid-scan: from the saved position on, command still holds
        text, then its terminator. */
    ghost predicate Scanning()
      reads this, command
    {
      Valid() &&
      save <= |text| < command.Length &&
      command[|text|] == NUL && NUL !in text &&
      forall k :: save <= k < |text| ==> command[k] == text[k]
    }

    constructor ()
      ensures Valid() && fresh(command) && fresh(args)
      ensures forall k :: 0 <= k < MaxTokens ==> args[k] == Unset
    {
      command := new char[BufferSize](_ => NUL);
      args := new Slot[MaxTokens](_ => Unset);
      save := 0;
      text := [];
    }

    /** The effect of a successful fgets: the line, then a terminator. */
    method ReadLine(line: seq<char>)
      requires Valid() && |line| <= MaxLine
      modifies command
      ensures command[..|line| + 1] == line + [NUL]
    {
      for k := 0 to |line|
        invariant forall j :: 0 <= j < k ==> command[j] == line[j]
      {
        command[k] := line[k];
      }
      command[|line|] := NUL;
    }

    /** command[strcspn(command, "\n")] = 0: end the C string at its first newline. */
    method StripNewline()
      requires Valid() && NUL in command[..]
      modifies command
      ensures NUL in command[..]
      ensures CStr(command[..]) == PrefixBefore(old(command[..]), LineEnds)
      ensures var n := |PrefixBefore(old(command[..]), LineEnds)|;
              n < command.Length && command[..] == old(command[..])[n := NUL]
    {
      var n := Strcspn(command, {'\n'});
      assert {'\n'} + {NUL} == LineEnds;
      ghost var cut := command[..n];
      command[n] := NUL;
      assert command[..n] == cut;
      assert command[..][n] == NUL;
      PrefixBeforeAt(command[..], {NUL}, n);
      assert command[..] == old(command[..])[n := NUL];
    }

    /** strtok(restart ? command : NULL, " "): a non-NULL string restarts
        the scan at its beginning; then the scan resumes. */
    method Strtok(restart: bool) returns (tok: Slot)
      requires Valid()
      requires restart ==> NUL in command[..]
      requires !restart ==> Scanning()
      modifies this, command
      ensures Scanning()
      ensures restart ==> text == CStr(old(command[..])) &&
                          tok == Returned(NextToken(text, 0)) && save == NextToken(text, 0).next
      ensures !restart ==> text == old(text) &&
                           tok == Returned(NextToken(text, old(save))) && save == NextToken(text, old(save)).next
      ensures restart ==> (tok.Ptr? ==> TokenAt(command[..], SkipDelims(text, 0), tok.text))
      ensures !restart ==> (tok.Ptr? ==> TokenAt(command[..], SkipDelims(text, old(save)), tok.text))
      ensures restart ==> command[..] == CutAfter(old(command[..]), text, 0)
      ensures !restart ==> command[..] == CutAfter(old(command[..]), text, old(save))
      ensures CutsSpaces(old(command[..]), command[..])
    {
      if restart {
        save := 0;
        text := CStr(command[..]);
      }
      tok := Resume();
    }

    /** The scan strtok performs from its saved position: skip spaces, return
        NULL at the terminator, otherwise cut out the token that starts there. */
    method Resume() returns (tok: Slot)
      requires Scanning()
      modifies this, command
      ensures Scanning() && text == old(text)
      ensures var r := NextToken(text, old(save));
              tok == Returned(r) && save == r.next
      ensures tok.Ptr? ==> TokenAt(command[..], SkipDelims(text, old(save)), tok.text)
      ensures command[..] == CutAfter(old(command[..]), text, old(save))
      ensures CutsSpaces(old(command[..]), command[..])
    {
      var b := save;
      while command[b] == Space
        invariant old(save) <= b <= |text|
        invariant SkipDelims(text, b) == SkipDelims(text, old(save))
        decreases |text| - b
      {
        b := b + 1;
      }
      assert b == SkipDelims(text, old(save));
      if command[b] == NUL {
        assert b == |text|;
        save := b;
        CutNone(command[..]);
        return Null;
      }
      tok := Cut(b);
    }

    /** The rest of the scan once a token starts at b: find the space or
        terminator after it, overwrite a space with NUL and save the
        position after it. */
    method Cut(b: nat) returns (tok: Slot)
      requires Scanning() && b == SkipDelims(text, save) && b < |text|
      modifies this, command
      ensures Scanning() && text == old(text)
      ensures var r := NextToken(text, old(save));
              tok == Returned(r) && save == r.next
      ensures tok.Ptr? && TokenAt(command[..], b, tok.text)
      ensures command[..] == CutAfter(old(command[..]), text, old(save))
      ensures CutsSpaces(old(command[..]), command[..])
    {
      var e := b;
      while command[e] != Space && command[e] != NUL
        invariant b <= e <= |text|
        invariant TokenEnd(text, e) == TokenEnd(text, b)
        decreases |text| - e
      {
        e := e + 1;
      }
      assert e == TokenEnd(text, b);
      TokenEndRun(text, b);
      assert command[b..e] == text[b..e] && Space !in text[b..e];
      tok := Ptr(command[b..e]);
      ghost var before := command[..];
      if command[e] == Space {
        command[e] := NUL;
        save := e + 1;
        assert command[..] == before[e := NUL];
        CutOne(before, e);
      } else {
        save := e;
        CutNone(before);
      }
      assert command[..][b..e] == tok.text && command[..][e] == NUL;
      SliceTokenAt(command[..], b, e);
    }

    /** The tokenizer loop of main: args[0] from a fresh strtok, then
        args[++i] while the last slot is non-NULL and i < 2. Slots past the
        first NULL keep whatever they held. */
    method Tokenize() returns (ghost starts: seq<nat>, ghost last: nat)
      requires Valid() && NUL in command[..]
      modifies this, command, args
      ensures Scanning() && text == CStr(old(command[..]))
      ensures args[..] == Fill(old(args[..]), text, 0, 0)
      ensures |starts| == MaxTokens && last < MaxTokens && (last < MaxTokens - 1 ==> args[last] == Null)
      ensures AllAt(command[..], args[..], starts, last + 1)
      ensures starts == Starts([0, 0, 0], text, 0, 0)
    {
      ghost var init := args[..];
      var i := 0;
      starts := FirstSlot();
      while args[i] != Null && i < 2
        invariant 0 <= i <= 2 && Scanning() && text == CStr(old(command[..]))
        invariant Fill(init, text, 0, 0) ==
                  if args[i] != Null && i < 2 then Fill(args[..], text, save, i + 1) else args[..]
        invariant |starts| == MaxTokens
        invariant AllAt(command[..], args[..], starts, i + 1)
        invariant Starts([0, 0, 0], text, 0, 0) ==
                  if args[i] != Null && i < 2 then Starts(starts, text, save, i + 1) else starts
      {
        i := i + 1;
        starts := NextSlot(i, starts);
      }
      last := i;
    }

    /** args[0] = strtok(command, " "), recording in starts[0] where the
        returned pointer addresses command. */
    method FirstSlot() returns (ghost starts: seq<nat>)
      requires Valid() && NUL in command[..]
      modifies this, command, args
      ensures Scanning() && text == CStr(old(command[..]))
      ensures var r := NextToken(text, 0);
              args[..] == old(args[..])[0 := Returned(r)] && save == r.next &&
              starts == [0, 0, 0][0 := SkipDelims(text, 0)]
      ensures AllAt(command[..], args[..], starts, 1)
    {
      var first := Strtok(true);
      args[0] := first;
      starts := [0, 0, 0][0 := SkipDelims(text, 0)];
    }

    /** args[i] = strtok(NULL, " "), recording in starts[i] where the
        returned pointer addresses command. */
    method NextSlot(i: nat, ghost starts: seq<nat>) returns (ghost recorded: seq<nat>)
      requires Scanning() && 0 < i < MaxTokens && |starts| == MaxTokens
      requires AllAt(command[..], args[..], starts, i)
      modifies this, command, args
      ensures Scanning() && text == old(text)
      ensures var r := NextToken(text, old(save));
              args[..] == old(args[..])[i := Returned(r)] && save == r.next &&
              recorded == starts[i := SkipDelims(text, old(save))]
      ensures AllAt(command[..], args[..], recorded, i + 1)
    {
      ghost var buf := command[..];
      var next := Strtok(false);
      AllAtKept(buf, command[..], args[..], starts, i);
      AllAtExtend(command[..], args[..], starts, i, next, SkipDelims(text, old(save)));
      args[i] := next;
      recorded := starts[i := SkipDelims(text, old(save))];
    }

    /** One pass of main's loop body for a line fgets returned. */
    method Step(line: seq<char>) returns (c: Command, ghost starts: seq<nat>)
      requires Valid() && |line| <= MaxLine
      modifies this, command, args
      ensures Valid()
      ensures c == DecideLine(line)
      ensures |starts| == MaxTokens && PointsInto(command[..], args[..], starts, Split(Chomp(line)))
      ensures starts == Starts([0, 0, 0], Chomp(line), 0, 0)
    {
      ReadLine(line);
      assert command[..][|line|] == NUL;
      assert PrefixBefore(command[..], LineEnds) == Chomp(line) by {
        PrefixBeforeAt(command[..], LineEnds, |Chomp(line)|);
      }
      StripNewline();
      ghost var slots := args[..];
      ghost var last;
      starts, last := Tokenize();
      FillHolds(slots, text);
      DispatchDecides(args[..], Split(text));
      c := Dispatch(args[..]);
      AllAtTokens(command[..], args[..], starts, last, Split(text));
    }
  }

  /** Deciding line i extends the decisions for the lines before it. */
  lemma DecisionsStep(lines: seq<seq<char>>, i: nat)
    requires i < |lines|
    ensures NonBlank(DecideLines(lines)[..i + 1]) ==
            NonBlank(DecideLines(lines)[..i]) + (if DecideLine(lines[i]).Blank? then [] else [DecideLine(lines[i])])
  {
    var all := DecideLines(lines);
    assert all[..i + 1] == all[..i] + [all[i]];
    NonBlankSnoc(all[..i], all[i]);
  }

  /** main: for each line until input runs out, decide what to do; a blank
      line continues without a decision. */
  method Run(lines: seq<seq<char>>) returns (decisions: seq<Command>)
    requires forall k :: 0 <= k < |lines| ==> |lines[k]| <= MaxLine
    ensures decisions == Decisions(lines)
  {
    var shell := new Shell();
    decisions := [];
    var i := 0;
    while i < |lines|
      invariant 0 <= i <= |lines|
      invariant shell.Valid() && fresh(shell.command) && fresh(shell.args)
      invariant decisions == NonBlank(DecideLines(lines)[..i])
    {
      ghost var starts;
      var c;
      c, starts := shell.Step(lines[i]);
      DecisionsStep(lines, i);
      i := i + 1;
      if c.Blank? {
        continue;
      }
      decisions := decisions + [c];
    }
    assert DecideLines(lines)[..i] == DecideLines(lines);
  }
}
