/** The layout core of the lexer: indentation, brackets and the end of the source. What a word, a number,
    an operator, a comment or a string covers is left to an arbitrary scanner. */
module LayoutLexer {
  import opened Collections

  datatype Token =
    | BlockStart
    | BlockCont
    | BlockEnd
    | BracketOpen(byte: char)
    | BracketClose(byte: char)
    | EOF
    | Err(msg: string)
    | Word

  const TAB_ERROR := "tab character not allowed"
  const DEDENT_ERROR := "unexpected dedent"
  const UNCLOSED := "unclosed bracket"

  /** What the scanner takes at a position: how much, and the tokens that follow the first. */
  datatype Scan = Scan(length: nat, follow: seq<Token>)

  datatype Source = Source(text: seq<char>, scan: nat -> Scan)

  predicate Plain(t: Token) {
    t == Word || (t.Err? && t.msg !in {UNCLOSED, DEDENT_ERROR, ")", "]", "}"})
  }

  ghost predicate ValidSource(src: Source) {
    forall p: nat :: p < |src.text| ==>
      && 1 <= src.scan(p).length <= |src.text| - p
      && forall t :: t in src.scan(p).follow ==> Plain(t)
  }

  /** An open bracket and the height of the indentation stack when it opened. */
  datatype Bracket = Bracket(open: char, depth: nat)

  datatype State = State(pos: nat, mode: seq<Bracket>, ind: seq<nat>, started: bool, pending: seq<Token>)

  function Start(): State {
    State(0, [], [0, 0], false, [])
  }

  function Last<T>(s: seq<T>): T
    requires s != []
  {
    s[|s| - 1]
  }

  function Front<T>(s: seq<T>): seq<T>
    requires s != []
  {
    s[..|s| - 1]
  }

  function Closer(open: char): char {
    match open
    case '(' => ')'
    case '[' => ']'
    case '{' => '}'
    case _ => ' '
  }

  // ---- Newlines -------------------------------------------------------------------------------------

  /** How many spaces stand from `pos` on. */
  function Spaces(text: seq<char>, pos: nat): (n: nat)
    requires pos <= |text|
    ensures pos + n <= |text| && (forall k :: pos <= k < pos + n ==> text[k] == ' ')
    ensures pos + n < |text| ==> text[pos + n] != ' '
    decreases |text| - pos
  {
    if pos < |text| && text[pos] == ' ' then 1 + Spaces(text, pos + 1) else 0
  }

  /** Where the blank lines at `pos` end: at the newline of a line that holds something, or at the end. */
  function SkipBlank(text: seq<char>, pos: nat): (p: nat)
    requires pos < |text| && text[pos] == '\n'
    ensures pos <= p <= |text| && (p < |text| ==> text[p] == '\n')
    ensures p == |text| ==> p > pos
    decreases |text| - pos
  {
    var next := pos + 1 + Spaces(text, pos + 1);
    if next == |text| then next
    else if text[next] == '\n' then SkipBlank(text, next)
    else pos
  }

  lemma SkipStep(text: seq<char>, pos: nat)
    requires pos < |text| && text[pos] == '\n'
    ensures var next := pos + 1 + Spaces(text, pos + 1);
            && pos < next <= |text|
            && SkipBlank(text, pos) == if next == |text| then next else if text[next] == '\n' then SkipBlank(text, next) else pos
  {
  }

  /** The indentation of the line that starts at the newline at `p`; none at the end. */
  function Indent(text: seq<char>, p: nat): nat
    requires p <= |text| && (p < |text| ==> text[p] == '\n')
  {
    if p < |text| then Spaces(text, p + 1) else 0
  }

  /** What a line of the given depth does: a deeper line opens a block, an equally deep one goes on, a
      shallower one closes one block. A line that falls between two known depths is an error and takes the
      place of the deeper one. */
  function LineAt(ind: seq<nat>, depth: nat): (r: (Token, seq<nat>))
    requires |ind| >= 2
  {
    if depth > Last(ind) then (BlockStart, ind + [depth])
    else if depth == Last(ind) then (BlockCont, ind)
    else if Last(Front(ind)) < depth then (Err(DEDENT_ERROR), Front(ind) + [depth])
    else (BlockEnd, Front(ind))
  }

  /** A newline: blank lines go, the next real line is placed and its indentation taken. A block end leaves
      the newline to be looked at again. */
  function Newline(text: seq<char>, st: State): (r: (Token, State))
    requires st.pos < |text| && text[st.pos] == '\n' && |st.ind| >= 2
  {
    var p := SkipBlank(text, st.pos);
    var depth := Indent(text, p);
    var (t, ind) := LineAt(st.ind, depth);
    (t, st.(ind := ind, pos := if t == BlockEnd || p == |text| then p else p + 1 + depth))
  }

  // ---- One token ------------------------------------------------------------------------------------

  /** The indentation stack before the end is reached: two zeros, then strictly increasing depths. */
  predicate Rising(ind: seq<nat>) {
    |ind| >= 2 && ind[0] == 0 && ind[1] == 0 && forall i :: 2 <= i < |ind| ==> ind[i - 1] < ind[i]
  }

  predicate Valid(src: Source, st: State) {
    && st.pos <= |src.text|
    && (Rising(st.ind) || (st.ind == [0] && st.started && st.pos == |src.text| && st.mode == []))
    && (!st.started ==> st.ind == [0, 0])
    && (forall b :: b in st.mode ==> b.open in {'(', '[', '{'} && b.depth >= 2)
    && (forall t :: t in st.pending ==> Plain(t))
  }

  function AtEnd(st: State): (Token, State)
    requires |st.ind| >= 1
  {
    if st.mode != [] then (Err(UNCLOSED), st.(mode := Front(st.mode)))
    else if |st.ind| > 1 then (BlockEnd, st.(ind := Front(st.ind)))
    else (EOF, st)
  }

  function AtClose(st: State, c: char): (Token, State)
    requires |st.ind| >= 1
  {
    if st.mode != [] && |st.ind| > Last(st.mode).depth then (BlockEnd, st.(ind := Front(st.ind)))
    else if st.mode != [] && Closer(Last(st.mode).open) == c then
      (BracketClose(c), st.(mode := Front(st.mode), pos := st.pos + 1))
    else (Err([c]), st.(pos := st.pos + 1))
  }

  /** The next token and the state after it. */
  ghost function Next(src: Source, st: State): (r: (Token, State))
    requires ValidSource(src) && Valid(src, st)
    ensures Valid(src, r.1)
    decreases |src.text| - st.pos
  {
    if st.pending != [] then (st.pending[0], st.(pending := st.pending[1..]))
    else if !st.started then (BlockStart, st.(started := true))
    else if st.pos == |src.text| then AtEnd(st)
    else
      var c := src.text[st.pos];
      if c == ' ' then Next(src, st.(pos := st.pos + 1))
      else if c == '\t' then (Err(TAB_ERROR), st.(pos := st.pos + 1))
      else if c == '\n' then
        var r := Newline(src.text, st);
        if st.mode != [] && r.0 == BlockCont && |r.1.ind| == Last(st.mode).depth then Next(src, r.1) else r
      else if c in {'(', '[', '{'} then
        (BracketOpen(c), st.(mode := st.mode + [Bracket(c, |st.ind|)], pos := st.pos + 1))
      else if c in {')', ']', '}'} then AtClose(st, c)
      else
        var s := src.scan(st.pos);
        (Word, st.(pos := st.pos + s.length, pending := s.follow))
  }

  // ---- The lexer as it runs ---------------------------------------------------------------------------

  class Lexer {
    const src: Source
    var pos: nat
    var mode: seq<Bracket>
    var ind: seq<nat>
    var started: bool
    var pending: seq<Token>

    ghost function Now(): State
      reads this
    {
      State(pos, mode, ind, started, pending)
    }

    ghost predicate Ok()
      reads this
    {
      ValidSource(src) && Valid(src, Now())
    }

    constructor (src: Source)
      requires ValidSource(src)
      ensures Ok() && this.src == src && Now() == Start()
    {
      this.src := src;
      pos, mode, ind, started, pending := 0, [], [0, 0], false, [];
    }

    /** Moves past blank lines, to the newline of a real line or to the end. */
    method SkipBlankLines()
      requires pos < |src.text| && src.text[pos] == '\n'
      modifies this`pos
      ensures pos == SkipBlank(src.text, old(pos))
    {
      hide SkipBlank, Spaces;
      var skipping := true;
      while skipping
        invariant pos <= |src.text| && (pos < |src.text| ==> src.text[pos] == '\n')
        invariant SkipBlank(src.text, old(pos)) == if skipping && pos < |src.text| then SkipBlank(src.text, pos) else pos
        decreases skipping, |src.text| - pos
      {
        if pos == |src.text| {
          skipping := false;
        } else {
          SkipStep(src.text, pos);
          var next := pos + 1 + Spaces(src.text, pos + 1);
          if next == |src.text| || src.text[next] == '\n' {
            pos := next;
          } else {
            skipping := false;
          }
        }
      }
    }

    method ConsumeNewline() returns (tok: Token)
      requires pos < |src.text| && src.text[pos] == '\n' && |ind| >= 2
      modifies this
      ensures (tok, Now()) == Newline(src.text, old(Now()))
    {
      hide SkipBlank, Spaces;
      SkipBlankLines();
      var depth := if pos < |src.text| then Spaces(src.text, pos + 1) else 0;
      tok := PlaceLine(depth);
      if tok != BlockEnd && pos < |src.text| {
        pos := pos + 1 + depth;
      }
    }

    method PlaceLine(depth: nat) returns (tok: Token)
      requires |ind| >= 2
      modifies this`ind
      ensures (tok, ind) == LineAt(old(ind), depth)
    {
      if depth > Last(ind) {
        ind := ind + [depth];
        tok := BlockStart;
      } else if depth < Last(ind) {
        ind := Front(ind);
        if Last(ind) < depth {
          ind := ind + [depth];
          tok := Err(DEDENT_ERROR);
        } else {
          tok := BlockEnd;
        }
      } else {
        tok := BlockCont;
      }
    }

    method NextToken() returns (tok: Token)
      requires Ok()
      modifies this
      ensures Ok() && (tok, Now()) == Next(src, old(Now()))
      decreases |src.text| - pos
    {
      if pending != [] {
        tok := pending[0];
        pending := pending[1..];
      } else if !started {
        started := true;
        tok := BlockStart;
      } else if pos == |src.text| {
        if mode != [] {
          mode := Front(mode);
          tok := Err(UNCLOSED);
        } else if |ind| > 1 {
          ind := Front(ind);
          tok := BlockEnd;
        } else {
          tok := EOF;
        }
      } else {
        tok := TokenHere();
      }
    }

    /** The token that starts at the byte at `pos`. */
    method TokenHere() returns (tok: Token)
      requires Ok() && pending == [] && started && pos < |src.text|
      modifies this
      ensures Ok() && (tok, Now()) == Next(src, old(Now()))
      decreases |src.text| - pos, 0
    {
      hide Newline, SkipBlank, Spaces;
      var c := src.text[pos];
      if c == ' ' {
        pos := pos + 1;
        tok := NextToken();
      } else if c == '\t' {
        pos := pos + 1;
        tok := Err(TAB_ERROR);
      } else if c == '\n' {
        NewlineValid(src, Now());
        NewlineMoves(src.text, Now());
        tok := ConsumeNewline();
        if mode != [] && tok == BlockCont && |ind| == Last(mode).depth {
          tok := NextToken();
        }
      } else if c in {'(', '[', '{'} {
        mode := mode + [Bracket(c, |ind|)];
        pos := pos + 1;
        tok := BracketOpen(c);
      } else if c in {')', ']', '}'} {
        if mode != [] && |ind| > Last(mode).depth {
          ind := Front(ind);
          tok := BlockEnd;
        } else if mode != [] && Closer(Last(mode).open) == c {
          mode := Front(mode);
          pos := pos + 1;
          tok := BracketClose(c);
        } else {
          pos := pos + 1;
          tok := Err([c]);
        }
      } else {
        var s := src.scan(pos);
        pos := pos + s.length;
        pending := s.follow;
        tok := Word;
      }
    }
  }

  // ---- Reaching the end -------------------------------------------------------------------------------

  /** Every token but the last makes something smaller: the bytes left, the tokens held back, the
      brackets and blocks still open, or the token every source begins with. */
  ghost predicate Smaller(src: Source, st: State, st': State) {
    || st'.pos > st.pos
    || (st'.pos == st.pos && |st'.pending| < |st.pending|)
    || (st'.pos == st.pos && |st'.pending| == |st.pending| && |st'.mode| + |st'.ind| < |st.mode| + |st.ind|)
    || (st'.pos == st.pos && |st'.pending| == |st.pending| && |st'.mode| + |st'.ind| == |st.mode| + |st.ind|
        && st'.started && !st.started)
  }

  lemma NewlineMoves(text: seq<char>, st: State)
    requires st.pos < |text| && text[st.pos] == '\n' && |st.ind| >= 2
    ensures var (t, st') := Newline(text, st);
            && (if t == BlockEnd then st'.pos >= st.pos && |st'.ind| == |st.ind| - 1 else st'.pos > st.pos)
            && st'.mode == st.mode && st'.pending == st.pending && st'.started == st.started
            && (t == BlockStart ==> |st'.ind| == |st.ind| + 1)
            && (t != BlockEnd && t != BlockStart ==> |st'.ind| == |st.ind|)
            && t in {BlockStart, BlockEnd, BlockCont, Err(DEDENT_ERROR)}
  {
  }

  lemma NewlineValid(src: Source, st: State)
    requires ValidSource(src) && Valid(src, st) && st.started && st.pos < |src.text| && src.text[st.pos] == '\n'
    ensures Valid(src, Newline(src.text, st).1)
  {
  }

  lemma {:induction false} NextShrinks(src: Source, st: State)
    requires ValidSource(src) && Valid(src, st)
    ensures var (t, st') := Next(src, st); t != EOF ==> st'.pos >= st.pos && Smaller(src, st, st')
    decreases |src.text| - st.pos
  {
    hide Newline, Spaces, SkipBlank;
    if st.pending == [] && st.started && st.pos < |src.text| {
      var c := src.text[st.pos];
      if c == ' ' {
        NextShrinks(src, st.(pos := st.pos + 1));
      } else if c == '\n' {
        NewlineMoves(src.text, st);
        NewlineValid(src, st);
        var r := Newline(src.text, st);
        if st.mode != [] && r.0 == BlockCont && |r.1.ind| == Last(st.mode).depth {
          NextShrinks(src, r.1);
        }
      }
    }
  }

  /** All tokens from a state on, up to and including the end. */
  ghost function Tokens(src: Source, st: State): (r: seq<Token>)
    requires ValidSource(src) && Valid(src, st)
    ensures |r| > 0
    decreases |src.text| - st.pos, |st.pending|, |st.mode| + |st.ind|, if st.started then 0 else 1
  {
    NextShrinks(src, st);
    var (t, st') := Next(src, st);
    if t == EOF then [EOF] else [t] + Tokens(src, st')
  }

  // ---- Blocks balance ---------------------------------------------------------------------------------

  /** Blocks opened less blocks closed. */
  function Opened(ts: seq<Token>): int {
    if ts == [] then 0
    else Opened(ts[..|ts| - 1]) + (if Last(ts) == BlockStart then 1 else if Last(ts) == BlockEnd then -1 else 0)
  }

  /** Blocks open in a state. */
  function Height(st: State): nat
    requires |st.ind| >= 1
  {
    if st.started then |st.ind| - 1 else 0
  }

  function Change(t: Token): int {
    if t == BlockStart then 1 else if t == BlockEnd then -1 else 0
  }

  lemma {:induction false} OpenedCons(t: Token, ts: seq<Token>)
    ensures Opened([t] + ts) == Change(t) + Opened(ts)
    decreases ts
  {
    if ts == [] {
      assert [t] + ts == [t] && [t][..0] == [];
    } else {
      assert ([t] + ts)[..|[t] + ts| - 1] == [t] + ts[..|ts| - 1];
      OpenedCons(t, ts[..|ts| - 1]);
    }
  }

  lemma {:induction false} TokensBalance(src: Source, st: State, k: nat)
    requires ValidSource(src) && Valid(src, st) && k <= |Tokens(src, st)|
    ensures Height(st) + Opened(Tokens(src, st)[..k]) >= 0
    ensures k == |Tokens(src, st)| ==> Height(st) + Opened(Tokens(src, st)) == 0
    decreases |src.text| - st.pos, |st.pending|, |st.mode| + |st.ind|, if st.started then 0 else 1
  {
    var ts := Tokens(src, st);
    var (t, st') := Next(src, st);
    NextReads(src, st);
    ReadChanges(Seen(st), t);
    NextShrinks(src, st);
    if t == EOF {
      OpenedCons(EOF, []);
      assert ts[..k] == [] || ts[..k] == [EOF] + [];
      assert [EOF] + [] == ts;
    } else if k > 0 {
      var rest := Tokens(src, st');
      TokensBalance(src, st', k - 1);
      assert ts[..k] == [t] + rest[..k - 1];
      OpenedCons(t, rest[..k - 1]);
      OpenedCons(t, rest);
    }
  }

  // ---- Brackets and blocks nest -----------------------------------------------------------------------

  predicate Pairs(open: char, close: char) {
    (open == '(' && close == ')') || (open == '[' && close == ']') || (open == '{' && close == '}')
  }

  /** What a reader of the tokens knows: the blocks that are open, and the brackets, each with the blocks that were
      open when it was opened. */
  datatype Reading = Reading(open: seq<Bracket>, height: nat)

  /** A reader follows one token, or finds it out of place. A bracket is closed by its own closer, and only when no
      block opened inside it is left, or given up; a closer is an error only where it closes nothing. A line that
      merely goes on is shown everywhere but at a bracket's own height. */
  function Read(r: Reading, t: Token): Option<Reading> {
    match t
    case BlockStart => Some(r.(height := r.height + 1))
    case BlockEnd => if r.height > 0 then Some(r.(height := r.height - 1)) else None
    case BlockCont => if r.open != [] && r.height == Last(r.open).depth then None else Some(r)
    case BracketOpen(c) => Some(r.(open := r.open + [Bracket(c, r.height)]))
    case BracketClose(c) =>
      if r.open != [] && Pairs(Last(r.open).open, c) && r.height <= Last(r.open).depth then Some(r.(open := Front(r.open)))
      else None
    case Err(msg) =>
      if msg == UNCLOSED then if r.open != [] then Some(r.(open := Front(r.open))) else None
      else if msg in {")", "]", "}"} && r.open != []
              && (Pairs(Last(r.open).open, msg[0]) || r.height > Last(r.open).depth) then None
      else Some(r)
    case EOF => if r == Reading([], 0) then Some(r) else None
    case Word => Some(r)
  }

  function Reads(r: Reading, ts: seq<Token>): Option<Reading>
    decreases ts
  {
    if ts == [] then Some(r)
    else
      match Read(r, ts[0])
      case None => None
      case Some(r') => Reads(r', ts[1..])
  }

  lemma ReadChanges(r: Reading, t: Token)
    ensures Read(r, t).Some? ==> Read(r, t).value.height == r.height + Change(t)
  {
  }

  /** A state as a reader of the tokens so far sees it. */
  function Seen(st: State): Reading
    requires st.ind != [] && forall b :: b in st.mode ==> b.depth >= 1
  {
    Reading(seq(|st.mode|, i requires 0 <= i < |st.mode| => SeenBracket(st.mode, i)), Height(st))
  }

  function SeenBracket(mode: seq<Bracket>, i: nat): Bracket
    requires i < |mode| && forall b :: b in mode ==> b.depth >= 1
  {
    assert mode[i] in mode;
    Bracket(mode[i].open, mode[i].depth - 1)
  }

  lemma {:induction false} NextReads(src: Source, st: State)
    requires ValidSource(src) && Valid(src, st)
    ensures var (t, st') := Next(src, st); Read(Seen(st), t) == Some(Seen(st'))
    decreases |src.text| - st.pos
  {
    hide Newline, Spaces, SkipBlank, AtEnd, AtClose;
    if st.pending == [] && st.started {
      if st.pos == |src.text| {
        EndReads(src, st);
      } else {
        var c := src.text[st.pos];
        if c == ' ' {
          NextReads(src, st.(pos := st.pos + 1));
          assert Seen(st.(pos := st.pos + 1)) == Seen(st);
        } else if c == '\n' {
          NewlineMoves(src.text, st);
          NewlineValid(src, st);
          var r := Newline(src.text, st);
          assert Seen(r.1).open == Seen(st).open;
          if st.mode != [] && r.0 == BlockCont && |r.1.ind| == Last(st.mode).depth {
            NextReads(src, r.1);
            assert Seen(r.1) == Seen(st);
          }
        } else if c in {'(', '[', '{'} {
          assert Seen(Next(src, st).1).open == Seen(st).open + [Bracket(c, Height(st))];
        } else if c in {')', ']', '}'} {
          CloseReads(src, st, c);
        }
      }
    } else if st.pending != [] {
      assert Plain(st.pending[0]);
    }
  }

  lemma EndReads(src: Source, st: State)
    requires Valid(src, st) && st.started && st.pos == |src.text|
    ensures var (t, st') := AtEnd(st); Valid(src, st') && Read(Seen(st), t) == Some(Seen(st'))
  {
    if st.mode != [] {
      assert Seen(AtEnd(st).1).open == Front(Seen(st).open);
    }
  }

  lemma CloseReads(src: Source, st: State, c: char)
    requires Valid(src, st) && st.started && st.pos < |src.text| && c in {')', ']', '}'}
    ensures var (t, st') := AtClose(st, c); Valid(src, st') && Read(Seen(st), t) == Some(Seen(st'))
  {
    if st.mode != [] {
      assert Last(st.mode) in st.mode;
      assert Last(Seen(st).open) == SeenBracket(st.mode, |st.mode| - 1);
      if |st.ind| <= Last(st.mode).depth && Closer(Last(st.mode).open) == c {
        assert Seen(AtClose(st, c).1).open == Front(Seen(st).open);
      }
    }
  }

  /** The state after a number of tokens. */
  ghost function After(src: Source, st: State, k: nat): (r: State)
    requires ValidSource(src) && Valid(src, st)
    ensures Valid(src, r)
    decreases k
  {
    if k == 0 then st else After(src, Next(src, st).1, k - 1)
  }

  /** From any state a reader follows the tokens all the way, and after each of them knows the blocks and brackets
      that the lexer holds open. */
  lemma {:induction false} TokensRead(src: Source, st: State, k: nat)
    requires ValidSource(src) && Valid(src, st) && k <= |Tokens(src, st)|
    ensures Reads(Seen(st), Tokens(src, st)[..k]) == Some(Seen(After(src, st, k)))
    ensures k < |Tokens(src, st)| ==>
              && Tokens(src, st)[k] == Next(src, After(src, st, k)).0
              && After(src, st, k + 1) == Next(src, After(src, st, k)).1
    decreases k
  {
    hide Next, Read, Seen;
    var ts := Tokens(src, st);
    var (t, st') := Next(src, st);
    NextShrinks(src, st);
    NextReads(src, st);
    assert After(src, st', 0) == st';
    if k > 0 {
      var rest := if t == EOF then [] else Tokens(src, st');
      assert ts == [t] + rest && ts[..k] == [t] + rest[..k - 1] && ts[..k][1..] == rest[..k - 1];
      if t != EOF {
        TokensRead(src, st', k - 1);
      }
    }
  }

  /** Brackets opened less those closed or given up. */
  function Depth(ts: seq<Token>): int {
    if ts == [] then 0
    else
      Depth(Front(ts)) + match Last(ts)
                         case BracketOpen(_) => 1
                         case BracketClose(_) => -1
                         case Err(msg) => if msg == UNCLOSED then -1 else 0
                         case _ => 0
  }

  /** The bracket opened at `i` is the one that is closed at `j`: more brackets are open all the way between. */
  ghost predicate Closes(ts: seq<Token>, i: nat, j: nat) {
    && i < j < |ts| && ts[i].BracketOpen? && ts[j].BracketClose?
    && Depth(ts[..j + 1]) == Depth(ts[..i]) && forall k :: i < k <= j ==> Depth(ts[..k]) > Depth(ts[..i])
  }

  /** The readings along a token sequence. */
  ghost predicate Walks(rs: seq<Reading>, ts: seq<Token>) {
    && |rs| == |ts| + 1 && rs[0] == Reading([], 0)
    && forall k :: 0 <= k < |ts| ==> Read(rs[k], ts[k]) == Some(rs[k + 1])
  }

  lemma {:induction false} WalkCounts(rs: seq<Reading>, ts: seq<Token>, k: nat)
    requires Walks(rs, ts) && k <= |ts|
    ensures |rs[k].open| == Depth(ts[..k]) && rs[k].height == Opened(ts[..k])
    decreases k
  {
    if k > 0 {
      WalkCounts(rs, ts, k - 1);
      assert Front(ts[..k]) == ts[..k - 1] && Last(ts[..k]) == ts[k - 1];
      assert Read(rs[k - 1], ts[k - 1]) == Some(rs[k]);
    }
  }

  /** Until it is closed, an open bracket keeps its place. */
  lemma {:induction false} WalkHolds(rs: seq<Reading>, ts: seq<Token>, i: nat, k: nat)
    requires Walks(rs, ts) && i < k <= |ts| && ts[i].BracketOpen?
    requires forall m :: i < m <= k ==> |rs[m].open| > |rs[i].open|
    ensures rs[k].open[|rs[i].open|] == Bracket(ts[i].byte, rs[i].height)
    decreases k
  {
    assert Read(rs[k - 1], ts[k - 1]) == Some(rs[k]);
    if k > i + 1 {
      WalkHolds(rs, ts, i, k - 1);
    }
  }

  lemma WalkCloses(rs: seq<Reading>, ts: seq<Token>, i: nat, j: nat)
    requires Walks(rs, ts) && Closes(ts, i, j)
    ensures Pairs(ts[i].byte, ts[j].byte) && Opened(ts[..j]) <= Opened(ts[..i])
  {
    forall k | i <= k <= j + 1
      ensures |rs[k].open| == Depth(ts[..k])
    {
      WalkCounts(rs, ts, k);
    }
    WalkCounts(rs, ts, i);
    WalkCounts(rs, ts, j);
    WalkHolds(rs, ts, i, j);
    assert Read(rs[j], ts[j]) == Some(rs[j + 1]);
  }

  /** For every source and every scanner: the lexer opens a block and reaches the end; up to any token no more blocks were
      closed than opened, and all are closed at the end; a reader can follow the tokens. So every bracket that is
      closed is closed by its own closer, and no block opened inside it outlives it. */
  lemma EverySource(src: Source, k: nat)
    requires ValidSource(src) && k <= |Tokens(src, Start())|
    ensures var ts := Tokens(src, Start());
            && ts[0] == BlockStart && Last(ts) == EOF && Opened(ts[..k]) >= 0 && Opened(ts) == 0
            && Reads(Reading([], 0), ts) == Some(Reading([], 0))
            && forall i: nat, j: nat :: Closes(ts, i, j) ==> Pairs(ts[i].byte, ts[j].byte) && Opened(ts[..j]) <= Opened(ts[..i])
  {
    hide Next, Read;
    var st, ts := Start(), Tokens(src, Start());
    TokensBalance(src, st, k);
    TokensBalance(src, st, |ts|);
    EndsInEof(src, st);
    FirstToken(src);
    assert Seen(st) == Reading([], 0);
    TokensRead(src, st, |ts|);
    assert ts[..|ts|] == ts;
    var rs := seq(|ts| + 1, n requires 0 <= n <= |ts| => Seen(After(src, st, n)));
    forall n | 0 <= n < |ts|
      ensures Read(rs[n], ts[n]) == Some(rs[n + 1])
    {
      TokensRead(src, st, n);
      NextReads(src, After(src, st, n));
    }
    EofReads(rs[|ts| - 1], rs[|ts|]);
    forall i: nat, j: nat | Closes(ts, i, j)
      ensures Pairs(ts[i].byte, ts[j].byte) && Opened(ts[..j]) <= Opened(ts[..i])
    {
      WalkCloses(rs, ts, i, j);
    }
  }

  lemma FirstToken(src: Source)
    requires ValidSource(src)
    ensures Tokens(src, Start())[0] == BlockStart
  {
  }

  lemma EofReads(r: Reading, r': Reading)
    requires Read(r, EOF) == Some(r')
    ensures r' == Reading([], 0)
  {
  }

  lemma {:induction false} EndsInEof(src: Source, st: State)
    requires ValidSource(src) && Valid(src, st)
    ensures Last(Tokens(src, st)) == EOF
    decreases |src.text| - st.pos, |st.pending|, |st.mode| + |st.ind|, if st.started then 0 else 1
  {
    NextShrinks(src, st);
    var (t, st') := Next(src, st);
    if t != EOF {
      EndsInEof(src, st');
    }
  }

  // ---- Where a line lands, what a closer closes, and the end ----------------------------------------------

  /** The depths a line of depth `d` leaves open. */
  function Keep(ind: seq<nat>, d: nat): (r: seq<nat>)
    requires |ind| >= 1 && ind[0] == 0
    ensures 1 <= |r| <= |ind| && r == ind[..|r|] && Last(r) <= d && (|r| < |ind| ==> ind[|r|] > d)
  {
    if Last(ind) > d then Keep(Front(ind), d) else ind
  }

  function BlockEnds(n: nat): (r: seq<Token>)
    ensures |r| == n && forall k :: 0 <= k < n ==> r[k] == BlockEnd
  {
    seq(n, _ => BlockEnd)
  }

  /** Only blank lines are skipped, and all of them: the line that is left holds something, and its newline stays where
      it is. */
  lemma {:induction false} SkipBlankLands(text: seq<char>, pos: nat)
    requires pos < |text| && text[pos] == '\n'
    ensures var p := SkipBlank(text, pos);
            && (forall k :: pos <= k < p ==> text[k] in {' ', '\n'})
            && (p < |text| ==>
                  var line := p + 1 + Spaces(text, p + 1);
                  line < |text| && text[line] != '\n' && SkipBlank(text, p) == p)
    decreases |text| - pos
  {
    hide SkipBlank, Spaces;
    SkipStep(text, pos);
    var next := pos + 1 + Spaces(text, pos + 1);
    if next < |text| && text[next] == '\n' {
      SkipBlankLands(text, next);
      forall k | pos <= k < SkipBlank(text, pos)
        ensures text[k] in {' ', '\n'}
      {
        assert k == pos || k < next || next <= k;
      }
    }
  }

  /** What becomes of the indentation `ind` at a line of depth `d`: how many blocks end, the token that settles the line
      and the depths that are open afterwards. */
  function Landing(ind: seq<nat>, d: nat): (r: (nat, Token, seq<nat>))
    requires Rising(ind)
  {
    var kept := Keep(ind, d);
    if Last(ind) < d then (0, BlockStart, ind + [d])
    else if Last(kept) == d then (|ind| - |kept|, BlockCont, kept)
    else (|ind| - |kept| - 1, Err(DEDENT_ERROR), kept + [d])
  }

  ghost predicate AtNewline(src: Source, st: State) {
    && ValidSource(src) && Valid(src, st) && st.started && st.pending == []
    && st.pos < |src.text| && src.text[st.pos] == '\n'
  }

  /** The token that settles a line is shown, unless the line merely goes on at the innermost bracket's own height. */
  ghost function Shown(t: Token, st: State): seq<Token> {
    if t == BlockCont && st.mode != [] && |st.ind| == Last(st.mode).depth then [] else [t]
  }

  lemma NewlineTokens(src: Source, st: State)
    requires AtNewline(src, st)
    ensures var (t, st') := Newline(src.text, st);
            Valid(src, st') && Tokens(src, st) == Shown(t, st') + Tokens(src, st')
  {
    hide Newline, Spaces, SkipBlank;
    NewlineMoves(src.text, st);
    NewlineValid(src, st);
    NextShrinks(src, st);
    var (t, st') := Newline(src.text, st);
    if Shown(t, st') == [] {
      assert Next(src, st) == Next(src, st');
      NextShrinks(src, st');
    }
  }

  /** How a line ends: the blocks it ends, the token that settles it and the state behind it. */
  function Landed(text: seq<char>, st: State): (nat, Token, State)
    requires st.pos < |text| && text[st.pos] == '\n' && Rising(st.ind)
  {
    var p := SkipBlank(text, st.pos);
    if p == |text| then
      if Last(st.ind) == 0 then (0, BlockCont, st.(pos := p)) else (0, BlockEnd, st.(pos := p, ind := Front(st.ind)))
    else
      var d := Spaces(text, p + 1);
      var (ends, t, ind) := Landing(st.ind, d);
      (ends, t, st.(pos := p + 1 + d, ind := ind))
  }

  /** A line, after any blank ones, opens one block if it is deeper than what is open; otherwise it closes exactly
      the blocks that are deeper than it and goes on at its own depth. If no open block has that depth, the
      innermost of the deeper ones is not closed but takes the line's depth, with an error. When only blank lines
      are left, the newline goes on at depth zero or closes the innermost block, and the end does the rest. */
  lemma {:induction false} LineLands(src: Source, st: State)
    requires AtNewline(src, st)
    ensures var (ends, t, st') := Landed(src.text, st);
            Valid(src, st') && Tokens(src, st) == BlockEnds(ends) + Shown(t, st') + Tokens(src, st')
    decreases |st.ind|
  {
    hide Next, Tokens, Newline, Landed, Valid, BlockEnds;
    NewlineTokens(src, st);
    assert Rising(st.ind) by { AtNewlineRising(src, st); }
    LandedStep(src.text, st);
    var (t, st') := Newline(src.text, st);
    if t == BlockEnd && st'.pos < |src.text| {
      AtNewlineStays(src, st);
      LineLands(src, st');
      var (n, end, st'') := Landed(src.text, st');
      EndsCons(n, Shown(end, st''), Tokens(src, st''));
    } else {
      NoEnds();
    }
  }

  lemma NoEnds()
    ensures BlockEnds(0) == []
  {
  }

  lemma AtNewlineRising(src: Source, st: State)
    requires AtNewline(src, st)
    ensures Rising(st.ind)
  {
  }

  lemma AtNewlineStays(src: Source, st: State)
    requires AtNewline(src, st)
    ensures var (t, st') := Newline(src.text, st);
            t == BlockEnd && st'.pos < |src.text| ==> AtNewline(src, st') && |st'.ind| < |st.ind|
  {
    NewlineValid(src, st);
  }

  lemma LandedStep(text: seq<char>, st: State)
    requires st.pos < |text| && text[st.pos] == '\n' && Rising(st.ind)
    ensures var (t, st') := Newline(text, st);
            if t == BlockEnd && st'.pos < |text| then
              && text[st'.pos] == '\n' && Rising(st'.ind)
              && Landed(text, st) == (Landed(text, st').0 + 1, Landed(text, st').1, Landed(text, st').2)
            else Landed(text, st) == (0, t, st')
  {
    hide Newline, Landing, SkipBlank, Spaces;
    NewlineIs(text, st);
    SkipBlankLands(text, st.pos);
    var p := SkipBlank(text, st.pos);
    LandingStep(st.ind, if p < |text| then Spaces(text, p + 1) else 0);
  }

  lemma EndsCons(n: nat, a: seq<Token>, b: seq<Token>)
    ensures [BlockEnd] + (BlockEnds(n) + a + b) == BlockEnds(n + 1) + a + b
  {
    assert BlockEnds(n + 1) == [BlockEnd] + BlockEnds(n);
  }

  lemma NewlineIs(text: seq<char>, st: State)
    requires st.pos < |text| && text[st.pos] == '\n' && |st.ind| >= 2
    ensures var p := SkipBlank(text, st.pos);
            var d := if p < |text| then Spaces(text, p + 1) else 0;
            var (t, ind) := LineAt(st.ind, d);
            Newline(text, st) == (t, st.(ind := ind, pos := if t == BlockEnd || p == |text| then p else p + 1 + d))
  {
  }

  lemma LandingStep(ind: seq<nat>, d: nat)
    requires Rising(ind)
    ensures var (t, ind') := LineAt(ind, d);
            if t == BlockEnd then
              Rising(ind') && Landing(ind, d) == (Landing(ind', d).0 + 1, Landing(ind', d).1, Landing(ind', d).2)
            else Landing(ind, d) == (0, t, ind')
  {
    var (t, ind') := LineAt(ind, d);
    if t == BlockEnd {
      assert ind' == Front(ind) && Keep(ind, d) == Keep(ind', d);
    } else if Last(ind) > d {
      assert Keep(ind, d) == Keep(Front(ind), d) == Front(ind);
    } else {
      assert Keep(ind, d) == ind;
    }
  }

  ghost predicate AtCloser(src: Source, st: State) {
    && ValidSource(src) && Valid(src, st) && st.started && st.pending == []
    && st.pos < |src.text| && src.text[st.pos] in {')', ']', '}'}
  }

  /** What a closer ends: the blocks above the innermost bracket's, and that bracket if the closer is its own. */
  function Closed(st: State, c: char): (nat, Token, State)
    requires st.ind != []
  {
    var ends := if st.mode != [] && |st.ind| > Last(st.mode).depth then |st.ind| - Last(st.mode).depth else 0;
    var own := st.mode != [] && Pairs(Last(st.mode).open, c);
    (ends, if own then BracketClose(c) else Err([c]),
     st.(ind := st.ind[..|st.ind| - ends], pos := st.pos + 1, mode := if own then Front(st.mode) else st.mode))
  }

  /** At a closer the lexer ends exactly the blocks opened inside the innermost bracket, and then closes the bracket if
      the closer is its own; any other closer is an error and leaves the brackets alone. */
  lemma {:induction false} CloserLands(src: Source, st: State)
    requires AtCloser(src, st)
    ensures st.ind != []
    ensures var (ends, t, st') := Closed(st, src.text[st.pos]);
            Valid(src, st') && Tokens(src, st) == BlockEnds(ends) + [t] + Tokens(src, st')
    decreases |st.ind|
  {
    hide Tokens, AtCloser, AtClose, Closed, Valid, BlockEnds;
    CloserTokens(src, st);
    var c := src.text[st.pos];
    var (t, st') := AtClose(st, c);
    if t == BlockEnd {
      CloserLands(src, st');
      var (n, end, st'') := Closed(st', c);
      EndsCons(n, [end], Tokens(src, st''));
    } else {
      NoEnds();
    }
  }

  /** The first token at a closer. */
  lemma CloserTokens(src: Source, st: State)
    requires AtCloser(src, st)
    ensures ValidSource(src) && Valid(src, st) && st.ind != [] && st.pos < |src.text|
    ensures var c := src.text[st.pos];
            var (t, st') := AtClose(st, c);
            && Valid(src, st') && Tokens(src, st) == [t] + Tokens(src, st')
            && if t == BlockEnd then
                 && AtCloser(src, st') && st'.pos == st.pos && |st'.ind| == |st.ind| - 1 && st'.ind != []
                 && Closed(st, c) == (Closed(st', c).0 + 1, Closed(st', c).1, Closed(st', c).2)
               else Closed(st, c) == (0, t, st')
  {
    NextShrinks(src, st);
    ClosedStep(st, src.text[st.pos]);
  }

  lemma ClosedStep(st: State, c: char)
    requires |st.ind| >= 2 && (st.mode != [] ==> Last(st.mode).depth >= 2 && Last(st.mode).open in {'(', '[', '{'})
    ensures var (t, st') := AtClose(st, c);
            if t == BlockEnd then
              st'.ind != [] && Closed(st, c) == (Closed(st', c).0 + 1, Closed(st', c).1, Closed(st', c).2)
            else Closed(st, c) == (0, t, st')
  {
    var (t, st') := AtClose(st, c);
    if st.mode != [] {
      OwnCloser(Last(st.mode).open, c);
    }
    if t == BlockEnd {
      var n := |st'.ind| - Last(st.mode).depth;
      assert st'.ind[..|st'.ind| - n] == st.ind[..|st.ind| - (n + 1)];
    } else {
      assert st.ind[..|st.ind|] == st.ind;
    }
  }

  lemma OwnCloser(open: char, c: char)
    requires open in {'(', '[', '{'}
    ensures Pairs(open, c) <==> Closer(open) == c
  {
  }

  /** Tokens held back come first. */
  lemma {:induction false} HeldBack(src: Source, st: State)
    requires ValidSource(src) && Valid(src, st)
    ensures Valid(src, st.(pending := [])) && Tokens(src, st) == st.pending + Tokens(src, st.(pending := []))
    decreases |st.pending|
  {
    if st.pending != [] {
      var st' := st.(pending := st.pending[1..]);
      assert Plain(st.pending[0]);
      NextShrinks(src, st);
      HeldBack(src, st');
      assert st.pending == [st.pending[0]] + st'.pending;
    } else {
      assert st.(pending := []) == st;
    }
  }

  /** Everything else: a space gives nothing, a tab an error; an opener is remembered with the blocks that are open; the
      rest is what the scanner makes of it. */
  lemma OtherLands(src: Source, st: State)
    requires ValidSource(src) && Valid(src, st) && st.started && st.pending == [] && st.pos < |src.text|
    requires src.text[st.pos] !in {'\n', ')', ']', '}'}
    ensures var c, scan := src.text[st.pos], src.scan(st.pos);
            var (ts, st') :=
              if c == ' ' then ([], st.(pos := st.pos + 1))
              else if c == '\t' then ([Err("tab character not allowed")], st.(pos := st.pos + 1))
              else if c in {'(', '[', '{'} then
                ([BracketOpen(c)], st.(pos := st.pos + 1, mode := st.mode + [Bracket(c, |st.ind|)]))
              else ([Word] + scan.follow, st.(pos := st.pos + scan.length));
            Valid(src, st') && Tokens(src, st) == ts + Tokens(src, st')
  {
    hide Tokens, Valid;
    var c := src.text[st.pos];
    if c == ' ' {
      SpaceSkipped(src, st);
    } else {
      FirstOf(src, st);
      if c !in {'\t', '(', '[', '{'} {
        var st' := Next(src, st).1;
        HeldBack(src, st');
        assert st'.(pending := []) == st.(pos := st.pos + src.scan(st.pos).length);
        assert [Word] + (st'.pending + Tokens(src, st'.(pending := []))) == [Word] + st'.pending + Tokens(src, st'.(pending := []));
      }
    }
  }

  lemma SpaceSkipped(src: Source, st: State)
    requires ValidSource(src) && Valid(src, st) && st.started && st.pending == []
    requires st.pos < |src.text| && src.text[st.pos] == ' '
    ensures var next := st.(pos := st.pos + 1); Valid(src, next) && Tokens(src, st) == Tokens(src, next)
  {
    var next := st.(pos := st.pos + 1);
    assert Next(src, st) == Next(src, next);
    NextShrinks(src, st);
    NextShrinks(src, next);
  }

  lemma FirstOf(src: Source, st: State)
    requires ValidSource(src) && Valid(src, st) && Next(src, st).0 != EOF
    ensures var (t, st') := Next(src, st); Valid(src, st') && Tokens(src, st) == [t] + Tokens(src, st')
  {
    hide Next;
    NextShrinks(src, st);
  }

  /** At the end every open bracket is reported, then every open block ends. */
  lemma {:induction false} EndLands(src: Source, st: State)
    requires ValidSource(src) && Valid(src, st) && st.started && st.pending == [] && st.pos == |src.text|
    ensures Tokens(src, st) == seq(|st.mode|, _ => Err(UNCLOSED)) + BlockEnds(|st.ind| - 1) + [EOF]
    decreases |st.mode| + |st.ind|
  {
    NextShrinks(src, st);
    var (t, st') := Next(src, st);
    if t != EOF {
      EndLands(src, st');
      if st.mode != [] {
        var errs: seq<Token> := seq(|st'.mode|, _ => Err(UNCLOSED));
        assert seq(|st.mode|, _ => Err(UNCLOSED)) == [t] + errs;
      } else {
        assert BlockEnds(|st.ind| - 1) == [t] + BlockEnds(|st'.ind| - 1);
      }
    } else {
      assert BlockEnds(0) == [];
    }
  }
}
