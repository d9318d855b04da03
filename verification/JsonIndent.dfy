/** Re-indenting JSON: two spaces per level and a final newline, copying every token from the input. */
module JsonIndent {
  import opened Common

  newtype Byte = x: int | 0 <= x < 0x100


  type Bytes = seq<Byte>

  const TAB: Byte := 9
  const NEWLINE: Byte := 10
  const RETURN: Byte := 13
  const SPACE: Byte := 32
  const QUOTE: Byte := 34
  const COMMA: Byte := 44
  const COLON: Byte := 58
  const OPEN_LIST: Byte := 91
  const BACKSLASH: Byte := 92
  const CLOSE_LIST: Byte := 93
  const OPEN_OBJECT: Byte := 123
  const CLOSE_OBJECT: Byte := 125

  predicate Whitespace(b: Byte) {
    b == SPACE || b == TAB || b == NEWLINE || b == RETURN
  }

  predicate Opens(b: Byte) {
    b == OPEN_OBJECT || b == OPEN_LIST
  }

  predicate Closes(b: Byte) {
    b == CLOSE_OBJECT || b == CLOSE_LIST
  }

  function Closing(b: Byte): Byte {
    if b == OPEN_OBJECT then CLOSE_OBJECT else CLOSE_LIST
  }

  // ---- What the bytes say: whitespace outside string literals deleted ----

  /** The length of a string literal's tail, closing quote included; a backslash escapes the next byte. */
  function Literal(x: Bytes): (n: Option<nat>)
    ensures n.Some? ==> 1 <= n.value <= |x|
  {
    if x == [] then None
    else if x[0] == QUOTE then Some(1)
    else
      var skip := if x[0] == BACKSLASH then 2 else 1;
      if skip > |x| then None
      else match Literal(x[skip..])
        case None => None
        case Some(n) => Some(n + skip)
  }

  /** Nothing when a string literal does not end. */
  function Strip(x: Bytes): Option<Bytes> {
    if x == [] then Some([])
    else if Whitespace(x[0]) then Strip(x[1..])
    else
      var n := TokenLength(x);
      if n.None? then None
      else match Strip(x[n.value..])
        case None => None
        case Some(s) => Some(x[..n.value] + s)
  }

  /** A token is a string literal or one other byte. */
  function TokenLength(x: Bytes): (n: Option<nat>)
    requires x != []
    ensures n.Some? ==> 1 <= n.value <= |x|
  {
    if x[0] != QUOTE then Some(1)
    else match Literal(x[1..])
      case None => None
      case Some(n) => Some(n + 1)
  }

  // ---- Tokens ----

  type Tokens = seq<Bytes>

  predicate IsToken(t: Bytes) {
    t != [] && !Whitespace(t[0]) && TokenLength(t) == Some(|t|)
  }

  ghost predicate AreTokens(ts: Tokens) {
    forall i :: 0 <= i < |ts| ==> IsToken(ts[i])
  }

  function Lex(x: Bytes): Option<Tokens> {
    if x == [] then Some([])
    else if Whitespace(x[0]) then Lex(x[1..])
    else
      var n := TokenLength(x);
      if n.None? then None
      else match Lex(x[n.value..])
        case None => None
        case Some(ts) => Some([x[..n.value]] + ts)
  }

  function Flatten(ts: Tokens): Bytes {
    if ts == [] then [] else ts[0] + Flatten(ts[1..])
  }

  lemma {:induction false} LiteralPrefix(x: Bytes, y: Bytes)
    requires Literal(x).Some?
    ensures Literal(x + y) == Literal(x) && Literal(x[..Literal(x).value]) == Literal(x)
    decreases |x|
  {
    if x[0] != QUOTE {
      var skip := if x[0] == BACKSLASH then 2 else 1;
      LiteralPrefix(x[skip..], y);
      assert (x + y)[skip..] == x[skip..] + y;
      var n := Literal(x).value;
      assert x[..n][skip..] == x[skip..][..n - skip];
    }
  }

  lemma TokenPrefix(x: Bytes, y: Bytes)
    requires x != [] && TokenLength(x).Some?
    ensures TokenLength(x + y) == TokenLength(x) && TokenLength(x[..TokenLength(x).value]) == TokenLength(x)
  {
    if x[0] == QUOTE {
      LiteralPrefix(x[1..], y);
      assert (x + y)[1..] == x[1..] + y;
      var n := TokenLength(x).value;
      assert x[..n][1..] == x[1..][..n - 1];
    }
  }

  lemma LexToken(t: Bytes, rest: Bytes)
    requires IsToken(t)
    ensures Lex(t + rest) == match Lex(rest) case None => None case Some(ts) => Some([t] + ts)
  {
    hide TokenLength;
    TokenPrefix(t, rest);
    assert (t + rest)[..|t|] == t && (t + rest)[|t|..] == rest;
  }

  lemma {:induction false} LexSpaces(w: Bytes, rest: Bytes)
    requires forall i :: 0 <= i < |w| ==> Whitespace(w[i])
    ensures Lex(w + rest) == Lex(rest)
  {
    hide TokenLength;
    if w == [] {
      assert w + rest == rest;
    } else {
      LexSpaces(w[1..], rest);
      assert (w + rest)[1..] == w[1..] + rest;
    }
  }

  lemma {:induction false} LexTokens(x: Bytes)
    requires Lex(x).Some?
    ensures AreTokens(Lex(x).value)
    decreases |x|
  {
    hide TokenLength;
    if x != [] {
      if Whitespace(x[0]) {
        LexTokens(x[1..]);
      } else {
        TokenPrefix(x, []);
        LexTokens(x[TokenLength(x).value..]);
      }
    }
  }

  lemma {:induction false} StripFlattens(x: Bytes)
    ensures Strip(x) == match Lex(x) case None => None case Some(ts) => Some(Flatten(ts))
    decreases |x|
  {
    hide TokenLength;
    if x != [] {
      if Whitespace(x[0]) {
        StripFlattens(x[1..]);
      } else if TokenLength(x).Some? {
        StripFlattens(x[TokenLength(x).value..]);
      }
    }
  }

  lemma {:induction false} LexFlattened(ts: Tokens)
    requires AreTokens(ts)
    ensures Lex(Flatten(ts)) == Some(ts)
  {
    if ts != [] {
      hide Lex, IsToken;
      LexFlattened(ts[1..]);
      assert IsToken(ts[0]);
      LexToken(ts[0], Flatten(ts[1..]));
      assert ts == [ts[0]] + ts[1..];
    } else {
      LexEmpty();
    }
  }

  lemma LexEmpty()
    ensures Lex([]) == Some([])
  {}

  /** The stripped form determines the tokens. */
  lemma StripDecides(x: Bytes, x': Bytes)
    requires Strip(x) == Strip(x')
    ensures Lex(x) == Lex(x')
  {
    hide Lex, Strip, Flatten, AreTokens;
    StripFlattens(x);
    StripFlattens(x');
    if Lex(x).Some? {
      LexTokens(x);
      LexTokens(x');
      LexFlattened(Lex(x).value);
      LexFlattened(Lex(x').value);
    }
  }

  // ---- String literals, as JSON has them ----

  /** One character of a literal: a plain byte, or a backslash and the byte it escapes. */
  predicate Character(u: Bytes) {
    (|u| == 1 && u[0] != 34 && u[0] != 92) || (|u| == 2 && u[0] == 92)
  }

  lemma WhitespaceIs(b: Byte)
    ensures Whitespace(b) <==> b in {9, 10, 13, 32}
  {}

  /** A literal's tail is its characters up to the first quote that is not escaped. */
  lemma {:induction false} LiteralReads(units: Tokens, rest: Bytes)
    requires forall i :: 0 <= i < |units| ==> Character(units[i])
    ensures Literal(Flatten(units) + [34] + rest) == Some(|Flatten(units)| + 1)
  {
    if units == [] {
      assert Flatten(units) + [34] + rest == [34] + rest;
    } else {
      var u, tail := units[0], Flatten(units[1..]) + [34] + rest;
      LiteralReads(units[1..], rest);
      var x := Flatten(units) + [34] + rest;
      assert x == u + tail;
      assert Character(u);
      assert x[0] == u[0] && x[|u|..] == tail;
    }
  }

  /** And nothing else is. */
  lemma {:induction false} LiteralIs(x: Bytes) returns (units: Tokens)
    requires Literal(x).Some?
    ensures forall i :: 0 <= i < |units| ==> Character(units[i])
    ensures x[..Literal(x).value] == Flatten(units) + [34]
    decreases |x|
  {
    if x[0] == QUOTE {
      units := [];
      assert x[..1] == [34];
    } else {
      var skip := if x[0] == BACKSLASH then 2 else 1;
      var rest := LiteralIs(x[skip..]);
      units := [x[..skip]] + rest;
      var n := Literal(x).value;
      assert units[0] == x[..skip] && units[1..] == rest;
      assert x[..n] == x[..skip] + x[skip..][..n - skip];
    }
  }

  // ---- The indented form ----

  function Spaces(n: nat): (s: Bytes)
    ensures |s| == n && forall i :: 0 <= i < n ==> s[i] == SPACE
  {
    seq(n, _ => SPACE)
  }

  function Line(depth: nat): Bytes {
    [NEWLINE] + Spaces(2 * depth)
  }

  /** A new line is a line feed and two spaces for each level. */
  lemma LineIs(depth: nat)
    ensures |Line(depth)| == 1 + 2 * depth && Line(depth)[0] == 10
    ensures forall i :: 1 <= i < |Line(depth)| ==> Line(depth)[i] == 32
  {}

  /** An opening bracket followed directly by its closing one. */
  predicate EmptyPair(ts: Tokens)
    requires AreTokens(ts)
  {
    |ts| > 1 && Opens(ts[0][0]) && ts[1][0] == Closing(ts[0][0])
  }

  /** What the first token adds, how many tokens it takes, and the depth after it; nothing for a
      closing bracket at depth zero. */
  function First(ts: Tokens, depth: nat): (r: Option<(Bytes, nat, nat)>)
    requires AreTokens(ts) && ts != []
    ensures r.Some? ==> 1 <= r.value.1 <= |ts|
  {
    var t, b := ts[0], ts[0][0];
    if Opens(b) then
      if EmptyPair(ts) then Some((t + ts[1], 2, depth)) else Some((t + Line(depth + 1), 1, depth + 1))
    else if Closes(b) then
      if depth == 0 then None else Some((Line(depth - 1) + t, 1, depth - 1))
    else if b == COMMA then Some((t + Line(depth), 1, depth))
    else if b == COLON then Some((t + [SPACE], 1, depth))
    else Some((t, 1, depth))
  }

  function Render(ts: Tokens, depth: nat): Option<Bytes>
    requires AreTokens(ts)
    decreases |ts|
  {
    if ts == [] then (if depth == 0 then Some([]) else None)
    else match First(ts, depth)
      case None => None
      case Some((text, n, depth')) =>
        match Render(ts[n..], depth')
        case None => None
        case Some(rest) => Some(text + rest)
  }

  /** The layout, token by token: a new line one level deeper after an opening bracket, one level up before a
      closing one and at the same level after a comma; a space after a colon; an empty pair stays
      together; and everything else is copied as it is. */
  lemma LayoutTable(ts: Tokens, depth: nat)
    requires AreTokens(ts) && ts != []
    ensures
      var t, b := ts[0], ts[0][0];
      && (b in {44} ==> First(ts, depth) == Some((t + Line(depth), 1, depth)))
      && (b in {58} ==> First(ts, depth) == Some((t + [32], 1, depth)))
      && (b in {125, 93} ==> First(ts, depth) == if depth == 0 then None else Some((Line(depth - 1) + t, 1, depth - 1)))
      && (b in {123, 91} && |ts| > 1 && ts[1][0] == b + 2 ==> First(ts, depth) == Some((t + ts[1], 2, depth)))
      && (b in {123, 91} && !(|ts| > 1 && ts[1][0] == b + 2) ==> First(ts, depth) == Some((t + Line(depth + 1), 1, depth + 1)))
      && (b !in {44, 58, 91, 93, 123, 125} ==> First(ts, depth) == Some((t, 1, depth)))
  {
    hide Line;
  }

  function Reindented(x: Bytes): Option<Bytes> {
    match Lex(x)
    case None => None
    case Some(ts) =>
      LexTokens(x);
      match Render(ts, 0)
      case None => None
      case Some(out) => if out == [] then None else Some(out + [NEWLINE])
  }

  // ---- Only insignificant whitespace changes ----

  lemma LineSpaces(depth: nat)
    ensures forall i :: 0 <= i < |Line(depth)| ==> Whitespace(Line(depth)[i])
  {}

  lemma LexBefore(t: Bytes, w: Bytes, rest: Bytes)
    requires IsToken(t) && forall i :: 0 <= i < |w| ==> Whitespace(w[i])
    ensures Lex((t + w) + rest) == match Lex(rest) case None => None case Some(ts) => Some([t] + ts)
    ensures Lex((w + t) + rest) == match Lex(rest) case None => None case Some(ts) => Some([t] + ts)
  {
    hide Lex, IsToken;
    assert (t + w) + rest == t + (w + rest) && (w + t) + rest == w + (t + rest);
    LexToken(t, w + rest);
    LexSpaces(w, rest);
    LexSpaces(w, t + rest);
    LexToken(t, rest);
  }

  /** Reading back what one token added gives the tokens it took. */
  lemma LexFirst(ts: Tokens, depth: nat, rest: Bytes)
    requires AreTokens(ts) && ts != [] && First(ts, depth).Some?
    ensures
      var (text, n, _) := First(ts, depth).value;
      Lex(text + rest) == match Lex(rest) case None => None case Some(us) => Some(ts[..n] + us)
  {
    hide Lex, IsToken, Line;
    var (text, n, _) := First(ts, depth).value;
    var t := ts[0];
    assert IsToken(t);
    assert n == 1 ==> ts[..n] == [t];
    if EmptyPair(ts) {
      assert IsToken(ts[1]) && ts[..2] == [t] + [ts[1]];
      assert text + rest == t + (ts[1] + rest);
      LexToken(t, ts[1] + rest);
      LexToken(ts[1], rest);
      assert forall us: Tokens :: [t] + ([ts[1]] + us) == ts[..2] + us;
    } else {
      LineSpaces(depth);
      LineSpaces(depth + 1);
      LexBefore(t, Line(depth), rest);
      LexBefore(t, Line(depth + 1), rest);
      LexBefore(t, [SPACE], rest);
      LexToken(t, rest);
      if depth > 0 {
        LineSpaces(depth - 1);
        LexBefore(t, Line(depth - 1), rest);
      }
    }
  }

  lemma {:induction false} LexRendered(ts: Tokens, depth: nat, tail: Bytes)
    requires AreTokens(ts) && Render(ts, depth).Some? && Lex(tail) == Some([])
    ensures Lex(Render(ts, depth).value + tail) == Some(ts)
    decreases |ts|
  {
    hide Lex, First, IsToken;
    if ts == [] {
      assert [] + tail == tail;
    } else {
      var (text, n, depth') := First(ts, depth).value;
      var rest := Render(ts[n..], depth').value;
      LexRendered(ts[n..], depth', tail);
      LexFirst(ts, depth, rest + tail);
      assert (text + rest) + tail == text + (rest + tail);
      assert ts[..n] + ts[n..] == ts;
    }
  }

  /** The output has the tokens of the input. */
  lemma SameTokens(x: Bytes)
    requires Reindented(x).Some?
    ensures Lex(Reindented(x).value) == Lex(x)
  {
    hide Render, IsToken;
    LexTokens(x);
    var ts := Lex(x).value;
    assert Lex([NEWLINE]) == Some([]);
    LexRendered(ts, 0, [NEWLINE]);
  }

  /** Only whitespace outside string literals changes. */
  lemma OnlyWhitespaceChanges(x: Bytes)
    requires Reindented(x).Some?
    ensures Strip(x).Some? && Strip(Reindented(x).value) == Strip(x)
  {
    hide Lex, Strip, Flatten, Render;
    SameTokens(x);
    StripFlattens(x);
    StripFlattens(Reindented(x).value);
  }

  /** The result, error or not, depends only on the stripped form. */
  lemma StripDecidesOutput(x: Bytes, x': Bytes)
    requires Strip(x) == Strip(x')
    ensures Reindented(x) == Reindented(x')
  {
    hide Lex, Strip, Render;
    StripDecides(x, x');
  }

  lemma Idempotent(x: Bytes)
    requires Reindented(x).Some?
    ensures Reindented(Reindented(x).value) == Reindented(x)
  {
    OnlyWhitespaceChanges(x);
    StripDecidesOutput(x, Reindented(x).value);
  }

  lemma EqualOutputs(x: Bytes, x': Bytes)
    requires Reindented(x).Some? && Reindented(x').Some?
    ensures Reindented(x) == Reindented(x') <==> Strip(x) == Strip(x')
  {
    hide Reindented, Strip;
    OnlyWhitespaceChanges(x);
    OnlyWhitespaceChanges(x');
    if Strip(x) == Strip(x') {
      StripDecidesOutput(x, x');
    }
  }

  // ---- What is accepted ----

  /** The nesting depth after the tokens, or nothing once it would fall below zero. */
  function Depth(ts: Tokens, depth: nat): Option<nat>
    requires AreTokens(ts)
  {
    if ts == [] then Some(depth)
    else if Opens(ts[0][0]) then Depth(ts[1..], depth + 1)
    else if !Closes(ts[0][0]) then Depth(ts[1..], depth)
    else if depth == 0 then None
    else Depth(ts[1..], depth - 1)
  }

  lemma {:induction false} RenderedExactly(ts: Tokens, depth: nat)
    requires AreTokens(ts)
    ensures Render(ts, depth).Some? <==> Depth(ts, depth) == Some(0)
    ensures Render(ts, depth).Some? && ts != [] ==> Render(ts, depth).value != []
    decreases |ts|
  {
    hide Line;
    if ts != [] {
      assert IsToken(ts[0]);
      if First(ts, depth).Some? {
        var (text, n, depth') := First(ts, depth).value;
        RenderedExactly(ts[n..], depth');
        if EmptyPair(ts) {
          assert ts[1..][1..] == ts[2..] && ts[1..][0] == ts[1];
        }
      }
    }
  }

  /** Accepted: every string literal ends, something is left, and brackets, of whichever kind, balance. */
  lemma AcceptedExactly(x: Bytes)
    ensures Reindented(x).Some? <==>
      Lex(x).Some? && Lex(x).value != [] && AreTokens(Lex(x).value) && Depth(Lex(x).value, 0) == Some(0)
  {
    hide Lex, Depth, AreTokens, IsToken;
    if Lex(x).Some? {
      LexTokens(x);
      RenderedExactly(Lex(x).value, 0);
      RenderNothing(Lex(x).value);
    }
  }

  lemma RenderNothing(ts: Tokens)
    requires AreTokens(ts)
    ensures ts == [] ==> Render(ts, 0) == Some([])
  {}

  /** The kinds of brackets are not matched against each other. */
  lemma KindsNotMatched()
    ensures Reindented([OPEN_LIST, CLOSE_OBJECT]) == Some([OPEN_LIST, NEWLINE, SPACE, SPACE, NEWLINE, CLOSE_OBJECT, NEWLINE])
  {
    var a, b: Bytes := [OPEN_LIST], [CLOSE_OBJECT];
    LexToken(a, b);
    assert b + [] == b;
    LexToken(b, []);
    assert Lex([]) == Some([]);
    assert [OPEN_LIST, CLOSE_OBJECT] == a + b;
    var ts := [a, b];
    assert [b] + [] == [b] && [a] + [b] == ts;
    assert Lex(a + b) == Some(ts);
    assert ts[1..] == [b] && [b][1..] == [];
    assert Render([b], 1) == Some(Line(0) + b + []);
    assert Render(ts, 0) == Some(a + Line(1) + (Line(0) + b + []));
    assert Line(0) == [NEWLINE] && Line(1) == [NEWLINE, SPACE, SPACE];
    assert a + Line(1) + (Line(0) + b + []) + [NEWLINE] == [OPEN_LIST, NEWLINE, SPACE, SPACE, NEWLINE, CLOSE_OBJECT, NEWLINE];
  }

  // ---- The formatter ----

  /** What is still to come when `out` is written and `x` is left. */
  function Remaining(out: Bytes, x: Bytes, depth: nat): Option<Bytes> {
    match Lex(x)
    case None => None
    case Some(ts) =>
      LexTokens(x);
      match Render(ts, depth)
      case None => None
      case Some(rest) => if out + rest == [] then None else Some(out + rest + [NEWLINE])
  }

  lemma RemainingStart(x: Bytes)
    ensures Remaining([], x, 0) == Reindented(x)
  {
    hide Lex, Render;
    if Lex(x).Some? {
      LexTokens(x);
      var r := Render(Lex(x).value, 0);
      assert r.Some? ==> [] + r.value == r.value;
    }
  }

  lemma RemainingSpace(out: Bytes, x: Bytes, depth: nat)
    requires x != [] && Whitespace(x[0])
    ensures Remaining(out, x, depth) == Remaining(out, x[1..], depth)
  {
    hide Render;
  }

  /** The first token of the input, and what it adds. */
  lemma RemainingToken(out: Bytes, x: Bytes, depth: nat)
    requires x != [] && !Whitespace(x[0])
    ensures TokenLength(x).None? ==> Remaining(out, x, depth).None?
    ensures TokenLength(x).Some? && !Opens(x[0]) ==>
      var t, rest := x[..TokenLength(x).value], x[TokenLength(x).value..];
      if Closes(x[0]) then
        Remaining(out, x, depth) == if depth == 0 then None else Remaining(out + Line(depth - 1) + t, rest, depth - 1)
      else
        Remaining(out, x, depth) ==
          Remaining(out + t + (if x[0] == COMMA then Line(depth) else if x[0] == COLON then [SPACE] else []), rest, depth)
  {
    hide TokenLength, Line;
    if TokenLength(x).Some? && !Opens(x[0]) {
      var t, rest := x[..TokenLength(x).value], x[TokenLength(x).value..];
      if Lex(rest).Some? {
        LexTokens(x);
        LexTokens(rest);
        RemainingFirst(out, x, depth, t, rest);
        var w := if x[0] == COMMA then Line(depth) else if x[0] == COLON then [SPACE] else [];
        assert out + (t + w) == out + t + w && t + [] == t;
        if depth > 0 {
          assert out + (Line(depth - 1) + t) == out + Line(depth - 1) + t;
        }
      }
    }
  }

  /** The continuation after the first token, when it takes only itself. */
  lemma RemainingFirst(out: Bytes, x: Bytes, depth: nat, t: Bytes, rest: Bytes)
    requires Lex(rest).Some? && Lex(x) == Some([t] + Lex(rest).value)
    requires AreTokens(Lex(x).value) && AreTokens(Lex(rest).value) && !EmptyPair(Lex(x).value)
    ensures
      var first := First(Lex(x).value, depth);
      Remaining(out, x, depth) == if first.None? then None else Remaining(out + first.value.0, rest, first.value.2)
  {
    hide Lex, Line, AreTokens;
    var ts := Lex(x).value;
    assert ts[1..] == Lex(rest).value;
    var first := First(ts, depth);
    if first.Some? {
      var text, r := first.value.0, Render(Lex(rest).value, first.value.2);
      assert r.Some? ==> out + (text + r.value) == (out + text) + r.value;
    }
  }

  /** An opening bracket: the closing one may follow directly, whitespace aside. */
  lemma RemainingOpen(out: Bytes, x: Bytes, depth: nat, next: nat)
    requires x != [] && Opens(x[0]) && 1 <= next <= |x|
    requires forall i :: 1 <= i < next ==> Whitespace(x[i])
    requires next < |x| ==> !Whitespace(x[next])
    ensures
      Remaining(out, x, depth) ==
        if next < |x| && x[next] == Closing(x[0]) then Remaining(out + [x[0], x[next]], x[next + 1..], depth)
        else Remaining(out + [x[0]] + Line(depth + 1), x[1..], depth + 1)
  {
    hide Lex, Line, Render;
    var t := [x[0]];
    assert x == t + x[1..];
    LexToken(t, x[1..]);
    var spaces, rest := x[1..next], x[next..];
    assert x[1..] == spaces + rest;
    LexSpaces(spaces, rest);
    if next < |x| && x[next] == Closing(x[0]) {
      var c := [x[next]];
      assert rest == c + x[next + 1..];
      LexToken(c, x[next + 1..]);
      if Lex(x[next + 1..]).Some? {
        RemainingPair(out, x, depth, t, c, x[next + 1..]);
        assert t + c == [x[0], x[next]];
      }
    } else if Lex(x[1..]).Some? {
      LexTokens(x);
      LexTokens(x[1..]);
      LexHead(rest);
      RemainingFirst(out, x, depth, t, x[1..]);
      assert out + (t + Line(depth + 1)) == out + t + Line(depth + 1);
    }
  }

  lemma LexHead(x: Bytes)
    requires Lex(x).Some?
    ensures x != [] && !Whitespace(x[0]) ==> Lex(x).value != [] && Lex(x).value[0] != [] && Lex(x).value[0][0] == x[0]
    ensures x == [] ==> Lex(x).value == []
  {
    hide TokenLength;
  }

  lemma RemainingPair(out: Bytes, x: Bytes, depth: nat, t: Bytes, c: Bytes, rest: Bytes)
    requires Lex(rest).Some? && Lex(x) == Some([t] + ([c] + Lex(rest).value))
    requires t != [] && c != [] && Opens(t[0]) && c[0] == Closing(t[0])
    ensures Remaining(out, x, depth) == Remaining(out + (t + c), rest, depth)
  {
    hide Lex, Line, AreTokens;
    LexTokens(x);
    LexTokens(rest);
    var ts := Lex(x).value;
    assert EmptyPair(ts);
    assert ts[2..] == Lex(rest).value;
    var r := Render(Lex(rest).value, depth);
    assert r.Some? ==> out + ((t + c) + r.value) == (out + (t + c)) + r.value;
  }

  /** Past the opening quote of a string literal: its end, or nothing. */
  method ScanLiteral(input: Bytes, start: nat) returns (end: Option<nat>)
    requires start < |input|
    ensures end == match Literal(input[start + 1..]) case None => None case Some(n) => Some(start + 1 + n)
  {
    var i := start + 1;
    while i < |input| && input[i] != QUOTE
      invariant start < i
      invariant i <= |input| ==>
        (match Literal(input[start + 1..]) case None => None case Some(n) => Some(start + 1 + n))
        == (match Literal(input[i..]) case None => None case Some(n) => Some(i + n))
      invariant i > |input| ==> Literal(input[start + 1..]).None?
      decreases |input| - i
    {
      var skip := if input[i] == BACKSLASH then 2 else 1;
      assert i + skip <= |input| ==> input[i..][skip..] == input[i + skip..];
      i := i + skip;
    }
    if i >= |input| {
      return None;
    }
    return Some(i + 1);
  }

  method Reindent(input: Bytes) returns (r: Option<Bytes>)
    ensures r == Reindented(input)
  {
    hide Remaining, Lex, Line, Literal, Reindented;
    var out: Bytes, depth: nat, i := [], 0, 0;
    RemainingStart(input);
    assert input[0..] == input;
    while i < |input|
      invariant i <= |input| && Remaining(out, input[i..], depth) == Reindented(input)
    {
      var byte := input[i];
      ghost var x := input[i..];
      assert x[1..] == input[i + 1..] && x[..1] == [byte];
      if Whitespace(byte) {
        RemainingSpace(out, x, depth);
        i := i + 1;
      } else if Opens(byte) {
        out, i, depth := Open(input, out, i, depth);
      } else {
        RemainingToken(out, x, depth);
        if byte == QUOTE {
          var end := ScanLiteral(input, i);
          if end.None? {
            return None;
          }
          assert x[..end.value - i] == input[i..end.value] && x[end.value - i..] == input[end.value..];
          out := out + input[i..end.value] + [];
          i := end.value;
        } else if Closes(byte) {
          if depth == 0 {
            return None;
          }
          depth := depth - 1;
          out := out + Line(depth) + [byte];
          i := i + 1;
        } else if byte == COMMA {
          out := out + [COMMA] + Line(depth);
          i := i + 1;
        } else if byte == COLON {
          out := out + [COLON] + [SPACE];
          i := i + 1;
        } else {
          out := out + [byte] + [];
          i := i + 1;
        }
      }
    }
    RemainingEnd(out, input[i..], depth);
    if depth != 0 || out == [] {
      return None;
    }
    return Some(out + [NEWLINE]);
  }

  method Open(input: Bytes, out: Bytes, i: nat, depth: nat) returns (out': Bytes, i': nat, depth': nat)
    requires i < |input| && Opens(input[i])
    ensures i < i' <= |input| && Remaining(out', input[i'..], depth') == Remaining(out, input[i..], depth)
  {
    hide Remaining, Line;
    ghost var x := input[i..];
    var next := i + 1;
    while next < |input| && Whitespace(input[next])
      invariant i < next <= |input|
      invariant forall k :: 1 <= k < next - i ==> Whitespace(x[k])
    {
      next := next + 1;
    }
    RemainingOpen(out, x, depth, next - i);
    if next < |input| && input[next] == Closing(input[i]) {
      assert x[next - i + 1..] == input[next + 1..];
      return out + [input[i], input[next]], next + 1, depth;
    }
    assert x[1..] == input[i + 1..];
    return out + [input[i]] + Line(depth + 1), i + 1, depth + 1;
  }

  lemma RemainingEnd(out: Bytes, x: Bytes, depth: nat)
    requires x == []
    ensures Remaining(out, x, depth) == if depth != 0 || out == [] then None else Some(out + [NEWLINE])
  {
    assert out + [] == out;
  }
}
