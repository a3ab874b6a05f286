/** What strtok(line, " ") yields when main calls it repeatedly: the pure
    semantics of the tokenizer, with the position strtok keeps in a hidden
    static variable made an explicit argument, and a reference reading of a
    line as its maximal runs of non-space characters. */
module Tokenizer {

  /** The only delimiter main hands to strtok. */
  const Space: char := ' '

  /** main keeps at most three tokens: the command name and two arguments. */
  const MaxTokens: nat := 3

  /** strspn(s + i, " "): the first position at or after i that is not a space. */
  function SkipDelims(s: seq<char>, i: nat): (j: nat)
    requires i <= |s|
    ensures i <= j <= |s|
    ensures j < |s| ==> s[j] != Space
    decreases |s| - i
  {
    if i < |s| && s[i] == Space then SkipDelims(s, i + 1) else i
  }

  /** strcspn(s + i, " "): the first position at or after i that is a space, or the end. */
  function TokenEnd(s: seq<char>, i: nat): (j: nat)
    requires i <= |s|
    ensures i <= j <= |s|
    ensures j < |s| ==> s[j] == Space
    decreases |s| - i
  {
    if i < |s| && s[i] != Space then TokenEnd(s, i + 1) else i
  }

  /** Everything SkipDelims passes over is a space. */
  lemma {:induction false} SkipDelimsSpaces(s: seq<char>, i: nat)
    requires i <= |s|
    ensures forall k :: i <= k < SkipDelims(s, i) ==> s[k] == Space
    decreases |s| - i
  {
    if i < |s| && s[i] == Space {
      SkipDelimsSpaces(s, i + 1);
    }
  }

  /** Nothing TokenEnd passes over is a space. */
  lemma {:induction false} TokenEndRun(s: seq<char>, i: nat)
    requires i <= |s|
    ensures forall k :: i <= k < TokenEnd(s, i) ==> s[k] != Space
    decreases |s| - i
  {
    if i < |s| && s[i] != Space {
      TokenEndRun(s, i + 1);
    }
  }

  /** The outcome of one strtok call: a token or NULL, and the position
      saved for the next call. */
  datatype Scan = Token(token: seq<char>, next: nat) | NoToken(next: nat)

  /** One call of strtok with delimiter " " on the C string s, resuming at pos:
      leading spaces are skipped; the token runs to the next space, which is
      consumed (strtok overwrites it with NUL), or to the end of s. */
  function NextToken(s: seq<char>, pos: nat): (r: Scan)
    requires pos <= |s|
    ensures r.NoToken? ==> r.next == |s|
    ensures r.Token? ==> r.token != [] && Space !in r.token && pos < r.next <= |s|
  {
    var b := SkipDelims(s, pos);
    if b == |s| then NoToken(b)
    else
      var e := TokenEnd(s, b);
      TokenEndRun(s, b);
      Token(s[b..e], if e < |s| then e + 1 else e)
  }

  /** The tokens of at most n successive strtok calls starting at pos; the
      calls stop at the first NULL. */
  function SplitFrom(s: seq<char>, pos: nat, n: nat): (toks: seq<seq<char>>)
    requires pos <= |s|
    ensures |toks| <= n
    ensures forall t :: t in toks ==> t != [] && Space !in t
    decreases n
  {
    if n == 0 then []
    else
      match NextToken(s, pos)
      case NoToken(_) => []
      case Token(t, next) => [t] + SplitFrom(s, next, n - 1)
  }

  /** The argument vector main builds from a stripped line: at most three
      tokens, none empty, none holding a space. */
  function Split(s: seq<char>): (toks: seq<seq<char>>)
    ensures |toks| <= MaxTokens
    ensures forall t :: t in toks ==> t != [] && Space !in t
  {
    SplitFrom(s, 0, MaxTokens)
  }

  /** strtok returns NULL exactly when nothing but spaces is left. */
  lemma NoTokenWhenBlank(s: seq<char>, pos: nat)
    requires pos <= |s|
    ensures NextToken(s, pos).NoToken? <==> forall k :: pos <= k < |s| ==> s[k] == Space
  {
    SkipDelimsSpaces(s, pos);
  }

  /** A line yields no token at all exactly when it is empty or all spaces. */
  lemma SplitBlank(s: seq<char>)
    ensures Split(s) == [] <==> forall k :: 0 <= k < |s| ==> s[k] == Space
  {
    NoTokenWhenBlank(s, 0);
  }

  /** Reference scanner, one character at a time: cur is the run of
      non-space characters read so far; a space (or the end) closes it. */
  function WordsFrom(s: seq<char>, cur: seq<char>): (ws: seq<seq<char>>)
    requires Space !in cur
    decreases |s|
  {
    if s == [] then
      (if cur == [] then [] else [cur])
    else if s[0] == Space then
      (if cur == [] then [] else [cur]) + WordsFrom(s[1..], [])
    else
      WordsFrom(s[1..], cur + [s[0]])
  }

  /** All maximal runs of non-space characters of s, left to right. */
  function Words(s: seq<char>): (ws: seq<seq<char>>)
  {
    WordsFrom(s, [])
  }

  /** The first n elements of xs, or all of them when there are fewer. */
  function Take<T>(xs: seq<T>, n: nat): seq<T>
  {
    if |xs| <= n then xs else xs[..n]
  }

  /** The characters of s other than spaces, in order. */
  function Unspaced(s: seq<char>): seq<char>
  {
    if s == [] then [] else (if s[0] == Space then [] else [s[0]]) + Unspaced(s[1..])
  }

  /** The strings of ts joined with nothing between them. */
  function Concat(ts: seq<seq<char>>): seq<char>
  {
    if ts == [] then [] else ts[0] + Concat(ts[1..])
  }

  /** Spaces before a word contribute nothing. */
  lemma {:induction false} WordsSkipSpaces(s: seq<char>, i: nat, j: nat)
    requires i <= j <= |s|
    requires forall k :: i <= k < j ==> s[k] == Space
    ensures Words(s[i..]) == Words(s[j..])
    decreases j - i
  {
    if i < j {
      assert s[i..][1..] == s[i + 1..];
      WordsSkipSpaces(s, i + 1, j);
    }
  }

  /** A run of non-space characters from b to e is read as one word, after
      which reading resumes past the space that ends it. */
  lemma {:induction false} WordsTokenRun(s: seq<char>, b: nat, j: nat, e: nat)
    requires b < e <= |s| && b <= j <= e
    requires forall k :: b <= k < e ==> s[k] != Space
    requires e < |s| ==> s[e] == Space
    ensures Space !in s[b..j]
    ensures WordsFrom(s[j..], s[b..j]) == [s[b..e]] + (if e < |s| then Words(s[e + 1..]) else [])
    decreases e - j
  {
    assert forall k :: 0 <= k < j - b ==> s[b..j][k] == s[b + k];
    if j == e {
      if e < |s| {
        assert s[e..][1..] == s[e + 1..];
      }
    } else {
      assert s[j..][1..] == s[j + 1..];
      assert s[b..j] + [s[j]] == s[b..j + 1];
      WordsTokenRun(s, b, j + 1, e);
    }
  }

  lemma TakeCons<T>(x: T, xs: seq<T>, n: nat)
    requires n >= 1
    ensures Take([x] + xs, n) == [x] + Take(xs, n - 1)
  {
    if |xs| > n - 1 {
      assert ([x] + xs)[..n] == [x] + xs[..n - 1];
    }
  }

  /** One strtok call from pos takes the first word of the rest of s, and
      leaves the remaining words after the position it saves. */
  lemma WordsOfNextToken(s: seq<char>, pos: nat)
    requires pos <= |s|
    ensures NextToken(s, pos).NoToken? ==> Words(s[pos..]) == []
    ensures NextToken(s, pos).Token? ==>
              Words(s[pos..]) == [NextToken(s, pos).token] + Words(s[NextToken(s, pos).next..])
  {
    var b := SkipDelims(s, pos);
    SkipDelimsSpaces(s, pos);
    WordsSkipSpaces(s, pos, b);
    if b == |s| {
      assert s[b..] == [];
    } else {
      var e := TokenEnd(s, b);
      TokenEndRun(s, b);
      WordsTokenRun(s, b, b, e);
      assert s[b..b] == [];
      if e == |s| {
        assert s[e..] == [];
      }
    }
  }

  /** The base case of SplitFromWords: a call that finds no token ends the scan. */
  lemma SplitFromWordsEnd(s: seq<char>, pos: nat, n: nat)
    requires pos <= |s| && n > 0 && NextToken(s, pos).NoToken?
    ensures SplitFrom(s, pos, n) == Take(Words(s[pos..]), n)
  {
    WordsOfNextToken(s, pos);
  }

  /** The induction step of SplitFromWords, for a call that finds a token. */
  lemma SplitFromWordsStep(s: seq<char>, pos: nat, n: nat, t: seq<char>, next: nat)
    requires pos <= |s| && n > 0 && NextToken(s, pos) == Token(t, next)
    requires SplitFrom(s, next, n - 1) == Take(Words(s[next..]), n - 1)
    ensures SplitFrom(s, pos, n) == Take(Words(s[pos..]), n)
  {
    WordsOfNextToken(s, pos);
    TakeCons(t, Words(s[next..]), n);
  }

  /** n successive strtok calls from pos yield the first n words of the rest of s. */
  lemma {:induction false} SplitFromWords(s: seq<char>, pos: nat, n: nat)
    requires pos <= |s|
    ensures SplitFrom(s, pos, n) == Take(Words(s[pos..]), n)
    decreases n
  {
    if n > 0 {
      match NextToken(s, pos)
      case NoToken(_) =>
        SplitFromWordsEnd(s, pos, n);
      case Token(t, next) =>
        SplitFromWords(s, next, n - 1);
        SplitFromWordsStep(s, pos, n, t, next);
    }
  }

  /** The tokens main keeps are the first three maximal runs of non-space
      characters of the line, in order; any later runs are ignored. */
  lemma SplitIsFirstWords(s: seq<char>)
    ensures Split(s) == Take(Words(s), MaxTokens)
  {
    SplitFromWords(s, 0, MaxTokens);
    assert s[0..] == s;
  }

  /** Reading s, then a space, then t, gives the words of s followed by those of t. */
  lemma {:induction false} WordsFromAppend(s: seq<char>, t: seq<char>, cur: seq<char>)
    requires Space !in cur
    ensures WordsFrom(s + [Space] + t, cur) == WordsFrom(s, cur) + WordsFrom(t, [])
    decreases |s|
  {
    var u := s + [Space] + t;
    if s == [] {
      assert u[1..] == t;
    } else {
      assert u[1..] == s[1..] + [Space] + t;
      if s[0] == Space {
        WordsFromAppend(s[1..], t, []);
      } else {
        WordsFromAppend(s[1..], t, cur + [s[0]]);
      }
    }
  }

  /** Whatever follows the third token of a line never reaches main. */
  lemma SurplusTokensIgnored(s: seq<char>, t: seq<char>)
    requires |Words(s)| >= MaxTokens
    ensures Split(s + [Space] + t) == Split(s)
  {
    WordsFromAppend(s, t, []);
    SplitIsFirstWords(s);
    SplitIsFirstWords(s + [Space] + t);
    assert (Words(s) + Words(t))[..MaxTokens] == Words(s)[..MaxTokens];
  }

  lemma {:induction false} WordsFromCover(s: seq<char>, cur: seq<char>)
    requires Space !in cur
    ensures Concat(WordsFrom(s, cur)) == cur + Unspaced(s)
    decreases |s|
  {
    if s == [] {
      if cur != [] {
        assert Concat([cur]) == cur + Concat([]);
      }
    } else if s[0] == Space {
      var rest := WordsFrom(s[1..], []);
      WordsFromCover(s[1..], []);
      assert Unspaced(s) == Unspaced(s[1..]);
      if cur != [] {
        assert ([cur] + rest)[0] == cur && ([cur] + rest)[1..] == rest;
        assert Concat([cur] + rest) == cur + Concat(rest);
      } else {
        assert WordsFrom(s, cur) == rest;
      }
    } else {
      WordsFromCover(s[1..], cur + [s[0]]);
    }
  }

  /** Only the space delimits: every other character of a line (a tab, a
      carriage return) ends up inside some word, in its original order. */
  lemma WordsCover(s: seq<char>)
    ensures Concat(Words(s)) == Unspaced(s)
  {
    WordsFromCover(s, []);
  }

  /** A non-empty line without spaces is a single token, whatever else it holds. */
  lemma SingleToken(s: seq<char>)
    requires s != [] && Space !in s
    ensures Split(s) == [s]
  {
    assert TokenEnd(s, 0) == |s|;
    assert s[0..|s|] == s;
  }
}
