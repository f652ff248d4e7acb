/** Command-line side of the Apalache mode: deciding whether the mode is
    selected, and normalising the arguments to pass through to Apalache.

    The raw pass-through values are split at every whitespace character, each
    piece is trimmed, and the empty pieces are dropped. Whitespace is the
    Unicode White_Space property, as Rust's `char::is_whitespace` has it. */
module ApalacheCla {
  import opened Common
  import Apalache
  import Mode

  /** The characters with the Unicode White_Space property: tab, line feed,
      vertical tab, form feed, carriage return, space, next line, no-break
      space, Ogham space mark, the spaces from U+2000 to U+200A, the line and
      paragraph separators, the narrow no-break space, the medium
      mathematical space and the ideographic space. */
  const WhitespaceChars: set<char> := {
    '\U{0009}', '\U{000A}', '\U{000B}', '\U{000C}', '\U{000D}', '\U{0020}', '\U{0085}',
    '\U{00A0}', '\U{1680}', '\U{2000}', '\U{2001}', '\U{2002}', '\U{2003}', '\U{2004}',
    '\U{2005}', '\U{2006}', '\U{2007}', '\U{2008}', '\U{2009}', '\U{200A}', '\U{2028}',
    '\U{2029}', '\U{202F}', '\U{205F}', '\U{3000}'}

  /** Rust's `char::is_whitespace`. */
  predicate IsWhitespace(c: char) {
    c in WhitespaceChars
  }

  predicate NoWhitespace(s: string) {
    forall i | 0 <= i < |s| :: !IsWhitespace(s[i])
  }

  // ---------------------------------------------------------------------
  // Splitting at whitespace

  /** The length of the run of non-whitespace characters that starts `s`:
      the position of the first whitespace character, or `|s|`. */
  function WordLength(s: string): (n: nat)
    ensures n <= |s|
    ensures n < |s| ==> IsWhitespace(s[n])
  {
    if s == [] || IsWhitespace(s[0]) then 0 else 1 + WordLength(s[1..])
  }

  /** The first word holds no whitespace. */
  lemma {:induction false} FirstWord(s: string)
    ensures NoWhitespace(s[..WordLength(s)])
  {
    if s != [] && !IsWhitespace(s[0]) {
      FirstWord(s[1..]);
      assert s[..WordLength(s)] == [s[0]] + s[1..][..WordLength(s[1..])];
    }
  }

  /** Text without whitespace is a single word. */
  lemma {:induction false} WordOfNoWhitespace(s: string)
    requires NoWhitespace(s)
    ensures WordLength(s) == |s|
  {
  }

  /** `str::split(char::is_whitespace)`: the text up to the first whitespace
      character, then the pieces of the text after it; text without
      whitespace is a single piece. Empty pieces are kept. */
  function Split(s: string): seq<string>
    decreases |s|
  {
    var n := WordLength(s);
    if n == |s| then [s] else [s[..n]] + Split(s[n + 1..])
  }

  /** No piece holds a whitespace character. */
  lemma {:induction false} SplitPiecesHaveNoWhitespace(s: string)
    ensures forall p | p in Split(s) :: NoWhitespace(p)
    decreases |s|
  {
    var n := WordLength(s);
    FirstWord(s);
    if n < |s| {
      SplitPiecesHaveNoWhitespace(s[n + 1..]);
    } else {
      assert s[..n] == s;
    }
  }

  /** Text without whitespace is one piece. */
  lemma {:induction false} SplitWithoutWhitespace(s: string)
    requires NoWhitespace(s)
    ensures Split(s) == [s]
  {
    WordOfNoWhitespace(s);
  }

  /** Splitting at a whitespace character splits the pieces. */
  lemma {:induction false} SplitAtWhitespace(a: string, c: char, b: string)
    requires IsWhitespace(c)
    ensures Split(a + [c] + b) == Split(a) + Split(b)
    decreases |a|
  {
    var n := WordLength(a);
    if n == |a| {
      SplitAfterWord(a, c, b);
    } else {
      SplitAtWhitespace(a[n + 1..], c, b);
      SplitAfterPieces(a, c, b);
    }
  }

  /** The base case of `SplitAtWhitespace`: `a` is a single word. */
  lemma {:induction false} SplitAfterWord(a: string, c: char, b: string)
    requires IsWhitespace(c) && WordLength(a) == |a|
    ensures Split(a + [c] + b) == Split(a) + Split(b)
  {
    var t := a + [c] + b;
    WordLengthBeforeWhitespace(a, c, b);
    SplitAtFirstWhitespace(t);
    assert t[..|a|] == a;
    assert t[|a| + 1..] == b;
  }

  /** The inductive step of `SplitAtWhitespace`: `a` holds whitespace. */
  lemma {:induction false} SplitAfterPieces(a: string, c: char, b: string)
    requires IsWhitespace(c) && WordLength(a) < |a|
    requires var n := WordLength(a);
      Split(a[n + 1..] + [c] + b) == Split(a[n + 1..]) + Split(b)
    ensures Split(a + [c] + b) == Split(a) + Split(b)
  {
    var n := WordLength(a);
    SplitFirstWordBefore(a, c, b);
    SplitAtFirstWhitespace(a);
    ConsAppend(a[..n], Split(a + [c] + b), Split(a[n + 1..] + [c] + b), Split(a), Split(a[n + 1..]), Split(b));
  }

  /** Gluing the first piece back on both sides of a split equation.
      Stated on its own so that the proofs that use it reason about
      sequence concatenation without `Split` or `Keep` terms in scope. */
  lemma {:induction false} ConsAppend<T>(w: T, whole: seq<T>, tail: seq<T>, left: seq<T>, leftTail: seq<T>, right: seq<T>)
    requires whole == [w] + tail && tail == leftTail + right && left == [w] + leftTail
    ensures whole == left + right
  {
    AppendAssociates([w], leftTail, right);
  }

  /** The first piece of `a + [c] + b` is the first piece of `a` when `a` holds whitespace. */
  lemma {:induction false} SplitFirstWordBefore(a: string, c: char, b: string)
    requires IsWhitespace(c) && WordLength(a) < |a|
    ensures Split(a + [c] + b) == [a[..WordLength(a)]] + Split(a[WordLength(a) + 1..] + [c] + b)
  {
    var t, n := a + [c] + b, WordLength(a);
    WordLengthBeforeWhitespace(a, c, b);
    InsideFirstPart(a, c, b, n);
    SplitAtWordEnd(t, n);
  }

  /** Unfolding `Split` at a given end of the first word. */
  lemma {:induction false} SplitAtWordEnd(s: string, n: nat)
    requires n == WordLength(s) < |s|
    ensures Split(s) == [s[..n]] + Split(s[n + 1..])
  {
  }

  /** Cutting `a + [c] + b` inside `a`.
      Stated on its own so that the proofs that use it reason about
      sequence concatenation without `Split` or `Keep` terms in scope. */
  lemma {:induction false} InsideFirstPart(a: string, c: char, b: string, n: nat)
    requires n < |a|
    ensures (a + [c] + b)[..n] == a[..n]
    ensures (a + [c] + b)[n + 1..] == a[n + 1..] + [c] + b
  {
  }

  /** Concatenation is associative.
      Stated on its own so that the proofs that use it reason about
      sequence concatenation without `Split` or `Keep` terms in scope. */
  lemma {:induction false} AppendAssociates<T>(p: seq<T>, q: seq<T>, r: seq<T>)
    ensures p + (q + r) == p + q + r
  {
  }

  /** Unfolding `Split` at the first whitespace character. */
  lemma {:induction false} SplitAtFirstWhitespace(s: string)
    requires WordLength(s) < |s|
    ensures Split(s) == [s[..WordLength(s)]] + Split(s[WordLength(s) + 1..])
  {
  }

  /** The first word of `a + [c] + b` ends within `a` when `c` is whitespace. */
  lemma {:induction false} WordLengthBeforeWhitespace(a: string, c: char, b: string)
    requires IsWhitespace(c)
    ensures WordLength(a + [c] + b) == WordLength(a)
  {
    if a != [] && !IsWhitespace(a[0]) {
      assert (a + [c] + b)[1..] == a[1..] + [c] + b;
      WordLengthBeforeWhitespace(a[1..], c, b);
    }
  }

  /** The whitespace characters of `s`, in order. */
  function Separators(s: string): seq<char> {
    if s == [] then []
    else (if IsWhitespace(s[0]) then [s[0]] else []) + Separators(s[1..])
  }

  lemma {:induction false} SeparatorsAppend(a: string, b: string)
    ensures Separators(a + b) == Separators(a) + Separators(b)
  {
    if a == [] {
      assert a + b == b;
    } else {
      assert (a + b)[1..] == a[1..] + b;
      SeparatorsAppend(a[1..], b);
    }
  }

  lemma {:induction false} SeparatorsOfWord(s: string)
    requires NoWhitespace(s)
    ensures Separators(s) == []
  {
    if s != [] {
      SeparatorsOfWord(s[1..]);
    }
  }

  /** Puts the separators back between the pieces. */
  function Weave(pieces: seq<string>, seps: seq<char>): string
    requires |pieces| == |seps| + 1
  {
    if seps == [] then pieces[0]
    else pieces[0] + [seps[0]] + Weave(pieces[1..], seps[1..])
  }

  /** Splitting loses nothing: there is one piece more than there are
      whitespace characters, and the pieces with those characters put back
      between them give the original text. */
  lemma {:induction false} SplitWeave(s: string)
    ensures |Split(s)| == |Separators(s)| + 1
    ensures Weave(Split(s), Separators(s)) == s
    decreases |s|, 1
  {
    if WordLength(s) == |s| {
      SplitWeaveWord(s);
    } else {
      SplitWeaveStep(s);
    }
  }

  /** The base case of `SplitWeave`: `s` holds no whitespace. */
  lemma {:induction false} SplitWeaveWord(s: string)
    requires WordLength(s) == |s|
    ensures |Split(s)| == |Separators(s)| + 1
    ensures Weave(Split(s), Separators(s)) == s
  {
    FirstWord(s);
    assert s[..|s|] == s;
    SeparatorsOfWord(s);
  }

  /** The inductive step of `SplitWeave`: `s` holds whitespace. */
  lemma {:induction false} SplitWeaveStep(s: string)
    requires WordLength(s) < |s|
    ensures |Split(s)| == |Separators(s)| + 1
    ensures Weave(Split(s), Separators(s)) == s
    decreases |s|, 0
  {
    var n := WordLength(s);
    var word, rest := s[..n], s[n + 1..];
    SplitWeave(rest);
    SplitAtFirstWhitespace(s);
    SeparatorsAfterWord(s);
    AroundSeparator(s, n);
    WeaveStep(s, word, s[n], rest, Split(s), Split(rest), Separators(s), Separators(rest));
  }

  /** A string is its prefix, the character at `n` and its suffix.
      Stated on its own so that the proofs that use it reason about
      sequence concatenation without `Split` or `Keep` terms in scope. */
  lemma {:induction false} AroundSeparator(s: string, n: nat)
    requires n < |s|
    ensures s[..n] + [s[n]] + s[n + 1..] == s
  {
  }

  /** Weaving one more piece and separator in front. */
  lemma {:induction false} WeaveStep(s: string, word: string, c: char, rest: string,
                                     pieces: seq<string>, restPieces: seq<string>,
                                     seps: seq<char>, restSeps: seq<char>)
    requires pieces == [word] + restPieces && seps == [c] + restSeps
    requires |restPieces| == |restSeps| + 1 && Weave(restPieces, restSeps) == rest
    requires s == word + [c] + rest
    ensures |pieces| == |seps| + 1 && Weave(pieces, seps) == s
  {
    WeaveCons(word, c, restPieces, restSeps);
  }

  /** The separators of text that goes on past its first word. */
  lemma {:induction false} SeparatorsAfterWord(s: string)
    requires WordLength(s) < |s|
    ensures Separators(s) == [s[WordLength(s)]] + Separators(s[WordLength(s) + 1..])
  {
    var n := WordLength(s);
    FirstWord(s);
    var word, tail := s[..n], [s[n]] + s[n + 1..];
    SeparatorsOfWord(word);
    assert s == word + tail;
    SeparatorsAppend(word, tail);
    assert tail[1..] == s[n + 1..];
  }

  lemma {:induction false} WeaveCons(p: string, c: char, pieces: seq<string>, seps: seq<char>)
    requires |pieces| == |seps| + 1
    ensures Weave([p] + pieces, [c] + seps) == p + [c] + Weave(pieces, seps)
  {
    assert ([p] + pieces)[1..] == pieces;
    assert ([c] + seps)[1..] == seps;
  }

  // ---------------------------------------------------------------------
  // Trimming

  /** `str::trim_start`: `s` without its leading whitespace. */
  function TrimStart(s: string): string {
    if s != [] && IsWhitespace(s[0]) then TrimStart(s[1..]) else s
  }

  /** `str::trim_end`: `s` without its trailing whitespace. */
  function TrimEnd(s: string): string {
    if s != [] && IsWhitespace(s[|s| - 1]) then TrimEnd(s[..|s| - 1]) else s
  }

  /** `str::trim`: `s` without its leading and trailing whitespace. */
  function Trim(s: string): string {
    TrimEnd(TrimStart(s))
  }

  /** Trimming the start removes the longest prefix made only of whitespace:
      what is left is a suffix of `s` that is empty or starts with a
      non-whitespace character. */
  lemma {:induction false} TrimStartDropsWhitespace(s: string)
    ensures var t := TrimStart(s);
      && |t| <= |s| && t == s[|s| - |t|..]
      && (forall i | 0 <= i < |s| - |t| :: IsWhitespace(s[i]))
      && (t == [] || !IsWhitespace(t[0]))
  {
    if s != [] && IsWhitespace(s[0]) {
      TrimStartDropsWhitespace(s[1..]);
    }
  }

  /** Trimming the end removes the longest suffix made only of whitespace:
      what is left is a prefix of `s` that is empty or ends with a
      non-whitespace character. */
  lemma {:induction false} TrimEndDropsWhitespace(s: string)
    ensures var t := TrimEnd(s);
      && |t| <= |s| && t == s[..|t|]
      && (forall i | |t| <= i < |s| :: IsWhitespace(s[i]))
      && (t == [] || !IsWhitespace(t[|t| - 1]))
  {
    if s != [] && IsWhitespace(s[|s| - 1]) {
      TrimEndDropsWhitespace(s[..|s| - 1]);
    }
  }

  /** A trimmed string neither starts nor ends with whitespace. */
  lemma {:induction false} TrimmedEnds(s: string)
    ensures var t := Trim(s); t == [] || (!IsWhitespace(t[0]) && !IsWhitespace(t[|t| - 1]))
  {
    var u := TrimStart(s);
    TrimStartDropsWhitespace(s);
    TrimEndDropsWhitespace(u);
    var t := TrimEnd(u);
    if t != [] {
      assert t[0] == u[0];
    }
  }

  /** Trimming text without whitespace changes nothing. */
  lemma {:induction false} TrimWord(s: string)
    requires NoWhitespace(s)
    ensures Trim(s) == s
  {
    assert TrimStart(s) == s;
    assert TrimEnd(s) == s;
  }

  // ---------------------------------------------------------------------
  // The pass-through arguments

  /** The `filter_map` step: each piece trimmed, the empty ones dropped. */
  function Keep(pieces: seq<string>): seq<string> {
    if pieces == [] then []
    else
      var t := Trim(pieces[0]);
      (if t == [] then [] else [t]) + Keep(pieces[1..])
  }

  /** Pieces without whitespace are kept as they are, the empty ones dropped. */
  lemma {:induction false} KeptPieces(pieces: seq<string>)
    requires forall p | p in pieces :: NoWhitespace(p)
    ensures forall a | a in Keep(pieces) :: a != [] && NoWhitespace(a) && a in pieces
  {
    if pieces != [] {
      assert pieces[0] in pieces;
      assert forall p | p in pieces[1..] :: p in pieces;
      KeptPieces(pieces[1..]);
    }
  }

  lemma {:induction false} KeepAppend(a: seq<string>, b: seq<string>)
    ensures Keep(a + b) == Keep(a) + Keep(b)
  {
    if a == [] {
      assert a + b == b;
    } else {
      KeepAppend(a[1..], b);
      KeepAppendStep(a, b);
    }
  }

  /** The inductive step of `KeepAppend`. */
  lemma {:induction false} KeepAppendStep(a: seq<string>, b: seq<string>)
    requires a != [] && Keep(a[1..] + b) == Keep(a[1..]) + Keep(b)
    ensures Keep(a + b) == Keep(a) + Keep(b)
  {
    var t := Trim(a[0]);
    var kept: seq<string> := if t == [] then [] else [t];
    assert Keep(a + b) == kept + Keep(a[1..] + b) by {
      assert (a + b)[0] == a[0];
      assert (a + b)[1..] == a[1..] + b;
    }
    assert Keep(a) == kept + Keep(a[1..]);
    AppendAssociates(kept, Keep(a[1..]), Keep(b));
  }

  /** The `map`/`flatten` steps: the pieces of all raw values, in order. */
  function Pieces(values: seq<string>): seq<string> {
    if values == [] then [] else Split(values[0]) + Pieces(values[1..])
  }

  /** No piece of any value holds a whitespace character. */
  lemma {:induction false} PiecesHaveNoWhitespace(values: seq<string>)
    ensures forall p | p in Pieces(values) :: NoWhitespace(p)
  {
    if values != [] {
      SplitPiecesHaveNoWhitespace(values[0]);
      PiecesHaveNoWhitespace(values[1..]);
    }
  }

  /** The arguments passed through to Apalache, from the raw trailing values
      (`None` when no trailing value was given). */
  function TailArgs(values: Option<seq<string>>): (args: seq<string>)
    ensures values.None? ==> args == []
    ensures forall a | a in args :: a != [] && NoWhitespace(a)
  {
    match values
    case None => []
    case Some(vs) =>
      PiecesHaveNoWhitespace(vs);
      KeptPieces(Pieces(vs));
      Keep(Pieces(vs))
  }

  /** Raw values one after another give their arguments one after another. */
  lemma {:induction false} TailArgsAppend(vs: seq<string>, ws: seq<string>)
    ensures TailArgs(Some(vs + ws)) == TailArgs(Some(vs)) + TailArgs(Some(ws))
  {
    PiecesAppend(vs, ws);
    KeepAppend(Pieces(vs), Pieces(ws));
  }

  lemma {:induction false} PiecesAppend(vs: seq<string>, ws: seq<string>)
    ensures Pieces(vs + ws) == Pieces(vs) + Pieces(ws)
  {
    if vs == [] {
      assert vs + ws == ws;
    } else {
      assert (vs + ws)[0] == vs[0];
      assert (vs + ws)[1..] == vs[1..] + ws;
      PiecesAppend(vs[1..], ws);
    }
  }

  // ---------------------------------------------------------------------
  // Words: an independent description of the result

  /** The maximal runs of non-whitespace characters of `s`, in order. */
  function Words(s: string): seq<string>
    decreases |s|
  {
    if s == [] then []
    else if IsWhitespace(s[0]) then Words(s[1..])
    else
      var n := WordLength(s);
      [s[..n]] + Words(s[n..])
  }

  /** The raw values joined by single spaces. */
  function JoinBySpace(values: seq<string>): string {
    if values == [] then ""
    else if |values| == 1 then values[0]
    else values[0] + " " + JoinBySpace(values[1..])
  }

  /** Unfolding `Words` at the first whitespace character. */
  lemma {:induction false} WordsAt(s: string)
    ensures var n := WordLength(s); n == |s| && s != [] ==> Words(s) == [s]
    ensures var n := WordLength(s); 0 < n < |s| ==> Words(s) == [s[..n]] + Words(s[n + 1..])
    ensures WordLength(s) == 0 < |s| ==> Words(s) == Words(s[1..])
  {
    var n := WordLength(s);
    if 0 < n < |s| {
      assert s[n..][1..] == s[n + 1..];
    } else if n == |s| && s != [] {
      assert s[n..] == [];
      assert s[..n] == s;
    }
  }

  /** Keeping the non-empty pieces of `s` gives exactly its words. */
  lemma {:induction false} KeptPiecesAreWords(s: string)
    ensures Keep(Split(s)) == Words(s)
    decreases |s|, 1
  {
    if WordLength(s) == |s| {
      KeptWord(s);
    } else {
      KeptPiecesStep(s);
    }
  }

  /** The base case of `KeptPiecesAreWords`: `s` holds no whitespace. */
  lemma {:induction false} KeptWord(s: string)
    requires WordLength(s) == |s|
    ensures Keep(Split(s)) == Words(s)
  {
    FirstWord(s);
    WordsAt(s);
    assert s[..|s|] == s;
    KeepCons(s, []);
    assert [s] + [] == [s];
  }

  /** The inductive step of `KeptPiecesAreWords`: `s` holds whitespace. */
  lemma {:induction false} KeptPiecesStep(s: string)
    requires WordLength(s) < |s|
    ensures Keep(Split(s)) == Words(s)
    decreases |s|, 0
  {
    var n := WordLength(s);
    KeptPiecesAreWords(s[n + 1..]);
    FirstWord(s);
    WordsAt(s);
    SplitAtFirstWhitespace(s);
    KeepCons(s[..n], Split(s[n + 1..]));
    if n == 0 {
      assert s[..n] == [];
    }
  }

  /** The pass-through arguments are exactly the whitespace-separated words
      of the raw values, in order, as if the values were joined by spaces. */
  lemma {:induction false} TailArgsAreWords(values: seq<string>)
    ensures TailArgs(Some(values)) == Words(JoinBySpace(values))
  {
    if values == [] {
    } else if |values| == 1 {
      assert values[1..] == [];
      assert Pieces(values) == Split(values[0]) + Pieces([]);
      assert Pieces(values) == Split(values[0]);
      KeptPiecesAreWords(values[0]);
    } else {
      var rest := values[1..];
      TailArgsAreWords(rest);
      SplitAtWhitespace(values[0], ' ', JoinBySpace(rest));
      assert values[0] + [' '] + JoinBySpace(rest) == JoinBySpace(values);
      assert |rest| >= 1;
      KeptPiecesAreWords(JoinBySpace(values));
      KeptPiecesAreWords(JoinBySpace(rest));
      KeepAppend(Split(values[0]), Split(JoinBySpace(rest)));
      KeptPiecesAreWords(values[0]);
      KeepAppend(Split(values[0]), Pieces(rest));
      assert Pieces(values) == Split(values[0]) + Pieces(rest);
    }
  }

  /** A pass-through value without whitespace reaches Apalache as it is. */
  lemma {:induction false} SingleWordPassedThrough(v: string)
    requires v != [] && NoWhitespace(v)
    ensures TailArgs(Some([v])) == [v]
  {
    SplitWithoutWhitespace(v);
    assert Pieces([v]) == Split(v) + Pieces([]);
    KeepCons(v, []);
  }


  /** Whitespace inside and around raw values separates arguments and is
      dropped: a leading space, a double space and a trailing tab leave
      just the words. */
  lemma {:induction false} WhitespaceSeparates(a: string, b: string, c: string)
    requires a != [] && b != [] && c != []
    requires NoWhitespace(a) && NoWhitespace(b) && NoWhitespace(c)
    ensures TailArgs(Some([" " + a + "  " + b, c + "\t"])) == [a, b, c]
  {
    var first, second := " " + a + "  " + b, c + "\t";
    SplitExample(a, b, c);
    PiecesAppend([first], [second]);
    assert Pieces([first]) == Split(first) + Pieces([]);
    assert Pieces([second]) == Split(second) + Pieces([]);
    assert [first] + [second] == [first, second];
    assert Pieces([first, second]) == [[], a, [], b] + [c, []];
    KeepExample(a, b, c);
  }

  lemma {:induction false} SplitExample(a: string, b: string, c: string)
    requires NoWhitespace(a) && NoWhitespace(b) && NoWhitespace(c)
    ensures Split(" " + a + "  " + b) == [[], a, [], b]
    ensures Split(c + "\t") == [c, []]
  {
    SplitLeadingAndDouble(a, b);
    SplitTrailing(c);
  }

  lemma {:induction false} SplitLeadingAndDouble(a: string, b: string)
    requires NoWhitespace(a) && NoWhitespace(b)
    ensures Split(" " + a + "  " + b) == [[], a, [], b]
  {
    LeadingAndDoubleText(a, b);
    SplitSpaceWordSpace(a, [' '] + b);
    SplitSpaceWord(b);
    assert [[], a] + [[], b] == [[], a, [], b];
  }

  /** The example text as single characters around its parts.
      Stated on its own so that the proofs that use it reason about
      sequence concatenation without `Split` or `Keep` terms in scope. */
  lemma {:induction false} LeadingAndDoubleText(a: string, b: string)
    ensures " " + a + "  " + b == [' '] + (a + [' '] + ([' '] + b))
  {
  }

  /** A space, a word and a space: an empty piece, then the word. */
  lemma {:induction false} SplitSpaceWordSpace(a: string, x: string)
    requires NoWhitespace(a)
    ensures Split([' '] + (a + [' '] + x)) == [[], a] + Split(x)
  {
    SplitAfterWhitespace(' ', a + [' '] + x);
    SplitWordThenWhitespace(a, ' ', x);
    ConsTwo([], a, Split(x));
  }

  /** Two elements in front, one at a time or together.
      Stated on its own so that the proofs that use it reason about
      sequence concatenation without `Split` or `Keep` terms in scope. */
  lemma {:induction false} ConsTwo<T>(p: T, q: T, r: seq<T>)
    ensures [p] + ([q] + r) == [p, q] + r
  {
  }

  /** A space and a word: an empty piece, then the word. */
  lemma {:induction false} SplitSpaceWord(b: string)
    requires NoWhitespace(b)
    ensures Split([' '] + b) == [[], b]
  {
    SplitWithoutWhitespace(b);
    SplitAfterWhitespace(' ', b);
  }

  lemma {:induction false} SplitTrailing(c: string)
    requires NoWhitespace(c)
    ensures Split(c + "\t") == [c, []]
  {
    var empty: string := [];
    assert c + "\t" == c + ['\t'] + empty;
    SplitWithoutWhitespace(empty);
    SplitWordThenWhitespace(c, '\t', empty);
  }

  /** A leading whitespace character starts with an empty piece. */
  lemma {:induction false} SplitAfterWhitespace(c: char, s: string)
    requires IsWhitespace(c)
    ensures Split([c] + s) == [[]] + Split(s)
  {
    assert ([c] + s)[1..] == s;
  }

  /** A word followed by whitespace is a piece of its own. */
  lemma {:induction false} SplitWordThenWhitespace(w: string, c: char, s: string)
    requires NoWhitespace(w) && IsWhitespace(c)
    ensures Split(w + [c] + s) == [w] + Split(s)
  {
    SplitWithoutWhitespace(w);
    SplitAtWhitespace(w, c, s);
  }

  lemma {:induction false} KeepExample(a: string, b: string, c: string)
    requires a != [] && b != [] && c != []
    requires NoWhitespace(a) && NoWhitespace(b) && NoWhitespace(c)
    ensures Keep([[], a, [], b] + [c, []]) == [a, b, c]
  {
    KeepTwoAfterEmpty(a, b);
    KeepBeforeEmpty(c);
    KeepAppend([[], a, [], b], [c, []]);
  }

  lemma {:induction false} KeepTwoAfterEmpty(a: string, b: string)
    requires a != [] && b != [] && NoWhitespace(a) && NoWhitespace(b)
    ensures Keep([[], a, [], b]) == [a, b]
  {
    var empty: string := [];
    KeepAfterEmpty(a);
    KeepAfterEmpty(b);
    KeepAppend([empty, a], [empty, b]);
    assert [empty, a] + [empty, b] == [empty, a, empty, b];
  }

  lemma {:induction false} KeepAfterEmpty(p: string)
    requires p != [] && NoWhitespace(p)
    ensures Keep([[], p]) == [p]
  {
    var empty: string := [];
    var none: seq<string> := [];
    KeepCons(p, none);
    assert [p] + none == [p];
    KeepCons(empty, [p]);
    assert [empty] + [p] == [empty, p];
  }

  lemma {:induction false} KeepBeforeEmpty(p: string)
    requires p != [] && NoWhitespace(p)
    ensures Keep([p, []]) == [p]
  {
    var empty: string := [];
    var none: seq<string> := [];
    assert Keep([empty]) == [] by {
      KeepCons(empty, none);
      assert [empty] + none == [empty];
    }
    assert Keep([p, empty]) == [p] + Keep([empty]) by {
      KeepCons(p, [empty]);
      assert [p] + [empty] == [p, empty];
    }
  }

  lemma {:induction false} KeepCons(p: string, rest: seq<string>)
    requires NoWhitespace(p)
    ensures Keep([p] + rest) == (if p == [] then [] else [p]) + Keep(rest)
  {
    assert ([p] + rest)[0] == p;
    assert ([p] + rest)[1..] == rest;
  }

  // ---------------------------------------------------------------------
  // Selection

  /** What the parsed command line says about the Apalache subcommand: its
      raw trailing values, if any, and whether the show-config flag is set. */
  datatype SubMatches = SubMatches(values: Option<seq<string>>, showConfig: bool)

  /** The mode is selected exactly when its subcommand is present; building
      it then fails only when the project path cannot be found. */
  function CheckMatches(sub: Option<SubMatches>, projectPath: Res<string>): (r: Option<Res<Apalache.Run>>)
    ensures r.None? <==> sub.None?
    ensures r.Some? ==> (r.value.Err? <==> projectPath.Err?)
    ensures r.Some? && r.value.Err? ==> r.value.error == projectPath.error
    ensures r.Some? && r.value.Ok? ==>
      var run := r.value.value;
      && run.tailArgs == TailArgs(sub.value.values)
      && run.showConfig == sub.value.showConfig
      && run.target.projectPath == projectPath.value
  {
    match sub
    case None => None
    case Some(m) => Some(Apalache.NewRun(TailArgs(m.values), m.showConfig, projectPath))
  }

  /** What the dispatcher's selection test sees of `CheckMatches`: whether
      the subcommand is present and, if so, whether building the run failed. */
  function Selection(sub: Option<SubMatches>, projectPath: Res<string>): (c: Option<Res<()>>)
    ensures c.None? <==> sub.None?
    ensures c.Some? ==> (c.value.Err? <==> projectPath.Err?)
    ensures c.Some? && c.value.Err? ==> c.value.error == projectPath.error
  {
    match CheckMatches(sub, projectPath)
    case None => None
    case Some(Ok(_)) => Some(Ok(()))
    case Some(Err(e)) => Some(Err(e))
  }

  /** The Apalache arm of the dispatcher, fed by this mode's own selection
      test and by the result of `Apalache.Launch`: an absent subcommand is
      not selected; a missing project path fails initialisation ("apalache
      mode initialization failed"); a failed launch is wrapped in "mode
      apalache failed"; a finished process hands its exit code through, or
      fails when it has none. */
  lemma {:induction false} ApalacheArm(sub: Option<SubMatches>, projectPath: Res<string>, launched: Res<ExitStatus>)
    ensures var r := Mode.Attempt(Mode.AsProcess(Mode.Apalache, Mode.Probe(Selection(sub, projectPath), launched)));
      && (sub.None? ==> r.None?)
      && (sub.Some? && projectPath.Err? ==>
            r == Some(Err(Context(Mode.InitContext(Mode.Apalache), projectPath.error))))
      && (sub.Some? && projectPath.Ok? && launched.Err? ==>
            r == Some(Err(Context(Mode.LaunchContext(Mode.Apalache), launched.error))))
      && (sub.Some? && projectPath.Ok? && launched.Ok? && launched.value.code.Some? ==>
            r == Some(Ok(Some(launched.value.code.value))))
      && (sub.Some? && projectPath.Ok? && launched.Ok? && launched.value.code.None? ==>
            r == Some(Err(Msg(Mode.ExitCodeMissing(Mode.Apalache)))))
  {
  }
}
