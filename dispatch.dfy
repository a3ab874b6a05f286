/** The decision main takes for one line: its if/else chain over the
    argument slots, and the command table that chain implements. */
module Commands {
  import opened Tokenizer

  /** The decision for one line. Each filesystem command names the call it
      hands its argument(s) to; the filesystem effects themselves are not
      modelled. */
  datatype Command =
    | Blank                                               // no first token: nothing happens
    | Mkdir(path: seq<char>)                              // create_directory
    | Rmdir(path: seq<char>)                              // delete_directory
    | Touch(path: seq<char>)                              // create_file
    | Ls(path: seq<char>)                                 // list_directory_contents
    | Cat(path: seq<char>)                                // show_file_contents
    | Chmod(permissions: seq<char>, path: seq<char>)      // change_permissions
    | Help                                                // show_help
    | Unknown                                             // "Unknown command" on stderr

  /** One cell of main's char *args[3]: never written yet, NULL, or a token. */
  datatype Slot = Unset | Null | Ptr(text: seq<char>)

  /** The names that take one path argument. */
  const PathCommands: set<seq<char>> := {"mkdir", "rmdir", "touch", "ls", "cat"}

  /** Every name the shell recognises. */
  const Names: set<seq<char>> := PathCommands + {"chmod", "help"}

  /** How many arguments a recognised name needs before it is dispatched. */
  function Arity(name: seq<char>): nat
    requires name in Names
  {
    if name == "help" then 0 else if name == "chmod" then 2 else 1
  }

  /** The slots the if/else chain may read: args[0] always, args[1] once args[0]
      is a token, args[2] once args[1] is a token. */
  predicate Readable(args: seq<Slot>)
  {
    |args| == MaxTokens &&
    args[0] != Unset &&
    (args[0].Ptr? ==> args[1] != Unset) &&
    (args[0].Ptr? && args[1].Ptr? ==> args[2] != Unset)
  }

  /** args[i] == NULL, for a slot that has been written. */
  function IsNull(slot: Slot): bool
    requires slot != Unset
  {
    slot == Null
  }

  /** The string a non-NULL slot points to. */
  function Deref(slot: Slot): seq<char>
    requires slot.Ptr?
  {
    slot.text
  }

  /** main's if/else chain, test for test: strcmp on args[0] for the first
      matching name, each name guarded by its argument slots being non-NULL. */
  function Dispatch(args: seq<Slot>): (c: Command)
    requires Readable(args)
    ensures c.Blank? <==> args[0] == Null
  {
    if IsNull(args[0]) then Blank
    else if Deref(args[0]) == "mkdir" && !IsNull(args[1]) then Mkdir(Deref(args[1]))
    else if Deref(args[0]) == "rmdir" && !IsNull(args[1]) then Rmdir(Deref(args[1]))
    else if Deref(args[0]) == "touch" && !IsNull(args[1]) then Touch(Deref(args[1]))
    else if Deref(args[0]) == "ls" && !IsNull(args[1]) then Ls(Deref(args[1]))
    else if Deref(args[0]) == "cat" && !IsNull(args[1]) then Cat(Deref(args[1]))
    else if Deref(args[0]) == "chmod" && !IsNull(args[1]) && !IsNull(args[2]) then Chmod(Deref(args[1]), Deref(args[2]))
    else if Deref(args[0]) == "help" then Help
    else Unknown
  }

  /** The slots as main's tokenizer loop leaves them for toks: the tokens in
      order, then NULL when there are fewer than three. Any slot after the
      NULL is not constrained: it may be unset or hold a stale token. */
  predicate Holds(args: seq<Slot>, toks: seq<seq<char>>)
  {
    |args| == MaxTokens && |toks| <= MaxTokens &&
    (forall k :: 0 <= k < |toks| ==> args[k] == Ptr(toks[k])) &&
    (|toks| < MaxTokens ==> args[|toks|] == Null)
  }

  /** The command a one-argument name stands for. */
  function OnPath(name: seq<char>, path: seq<char>): Command
    requires name in PathCommands
  {
    if name == "mkdir" then Mkdir(path)
    else if name == "rmdir" then Rmdir(path)
    else if name == "touch" then Touch(path)
    else if name == "ls" then Ls(path)
    else Cat(path)
  }

  /** The command table: a recognised name with at least its arguments acts
      on the first of them (chmod on the first two); help acts with any
      arguments; everything else, including a recognised name that lacks an
      argument, is unknown; an empty token list is a blank line. */
  function Decide(toks: seq<seq<char>>): Command
  {
    if toks == [] then Blank
    else if toks[0] in PathCommands && |toks| >= 2 then OnPath(toks[0], toks[1])
    else if toks[0] == "chmod" && |toks| >= 3 then Chmod(toks[1], toks[2])
    else if toks[0] == "help" then Help
    else Unknown
  }

  /** Exactly an empty token list is blank; help is shown whenever the first
      token is help; a line is unknown exactly when its first token is not a
      recognised name, or is one but lacks an argument it needs. Matching is
      exact, so any other spelling of a name is unknown. */
  lemma DecideCases(toks: seq<seq<char>>)
    ensures Decide(toks).Blank? <==> toks == []
    ensures Decide(toks).Help? <==> toks != [] && toks[0] == "help"
    ensures Decide(toks).Unknown? <==> toks != [] && (toks[0] !in Names || |toks| <= Arity(toks[0]))
    ensures !Decide(toks).Blank? && !Decide(toks).Unknown? ==> toks[0] in Names
  {
  }

  /** The if/else chain reads only slots that the tokenizer wrote, never a
      slot past the first NULL, and decides exactly as the command table. */
  lemma DispatchDecides(args: seq<Slot>, toks: seq<seq<char>>)
    requires Holds(args, toks)
    ensures Readable(args)
    ensures Dispatch(args) == Decide(toks)
  {
    if |toks| >= 1 {
      assert args[0] == Ptr(toks[0]);
    }
    if |toks| >= 2 {
      assert args[1] == Ptr(toks[1]);
    }
    if |toks| == 3 {
      assert args[2] == Ptr(toks[2]);
    }
  }

  /** Arguments beyond those a recognised name needs do not change the decision. */
  lemma SurplusArgumentsIgnored(toks: seq<seq<char>>)
    requires toks != [] && toks[0] in Names && |toks| > Arity(toks[0]) + 1
    ensures Decide(toks) == Decide(toks[..Arity(toks[0]) + 1])
  {
  }

  /** A path command acts on its first argument, chmod on its first two. */
  lemma CommandArguments(toks: seq<seq<char>>)
    requires toks != [] && toks[0] in Names && |toks| > Arity(toks[0])
    ensures toks[0] in PathCommands ==> Decide(toks) == OnPath(toks[0], toks[1])
    ensures toks[0] == "chmod" ==> Decide(toks) == Chmod(toks[1], toks[2])
  {
  }
}
