/** Which mode a script's text is in, read off the input alone, and what each tokenizer state says
    of it. */
module TextEscapes {
  import opened Options
  import opened TextTokenizer
  import opened TextLexing

  // ---------------------------------------------------------------------------------------
  // The specification: modes of script text

  datatype Mode = Plain | Escaped | Doubled

  /** A mode, and where it began. */
  datatype Span = Span(mode: Mode, since: nat)

  /** `<!--` starts at `q`. */
  predicate CommentAt(s: seq<int>, q: nat) {
    q + 4 <= |s| && s[q] == LT && s[q + 1] == BANG && s[q + 2] == DASH && s[q + 3] == DASH
  }

  /** `-->` starts at `q`. */
  predicate ArrowAt(s: seq<int>, q: nat) {
    q + 3 <= |s| && s[q] == DASH && s[q + 1] == DASH && s[q + 2] == GT
  }

  /** `<script`, in any case, and a character that ends the name start at `r`. */
  predicate ScriptTagAt(s: seq<int>, r: nat) {
    r + 8 <= |s| && s[r] == LT && LowerAll(s[r + 1..r + 7]) == SCRIPT_NAME && EndsName(s[r + 7])
  }

  predicate EndScriptAt(s: seq<int>, r: nat) {
    && r + 9 <= |s| && s[r] == LT && s[r + 1] == SLASH
    && LowerAll(s[r + 2..r + 8]) == SCRIPT_NAME && EndsName(s[r + 8])
  }

  /** The mode at `p`, from the mode just before: `<!--` escapes, a `<script` tag inside escapes doubly,
      `</script` takes that back, and `-->` ends both. The dashes of `<!--` may be those of `-->`. */
  function Next(s: seq<int>, m: Span, p: nat): Span {
    match m.mode
    case Plain => if p >= m.since + 4 && CommentAt(s, p - 4) then Span(Escaped, p) else m
    case Escaped =>
      if p >= 3 && p >= m.since + 1 && ArrowAt(s, p - 3) then Span(Plain, p)
      else if p >= m.since + 8 && ScriptTagAt(s, p - 8) then Span(Doubled, p)
      else m
    case Doubled =>
      if p >= m.since + 3 && ArrowAt(s, p - 3) then Span(Plain, p)
      else if p >= m.since + 9 && EndScriptAt(s, p - 9) then Span(Escaped, p)
      else m
  }

  /** The mode at `p` of a text that begins at `from`. */
  function ModeAt(s: seq<int>, from: nat, p: nat): Span
    requires from <= p
    decreases p - from
  {
    if p == from then Span(Plain, from) else Next(s, ModeAt(s, from, p - 1), p)
  }

  // ---------------------------------------------------------------------------------------
  // What the states say

  /** Where the input goes on once the buffer is flushed. */
  function Front(lx: Lexer): nat { if lx.emit.Some? then lx.mark + |lx.temp| else lx.cursor }

  /** Plain at `f`, and no `<!--` has begun except perhaps `k` characters back. */
  ghost predicate PlainAt(s: seq<int>, from: nat, f: nat, k: nat) {
    from <= f <= |s| && ModeAt(s, from, f).mode == Plain &&
    var since := ModeAt(s, from, f).since;
    since + k <= f && forall q :: since <= q < f - k ==> !CommentAt(s, q)
  }

  /** Escaped at `f`, and no `<script` tag has begun except perhaps `k` characters back. */
  ghost predicate EscapedAt(s: seq<int>, from: nat, f: nat, k: nat) {
    from <= f <= |s| && ModeAt(s, from, f).mode == Escaped &&
    var since := ModeAt(s, from, f).since;
    since + k <= f && forall r :: since <= r < f - k ==> !ScriptTagAt(s, r)
  }

  /** Doubly escaped at `f`, and no `</script` tag has begun except perhaps `k` characters back. */
  ghost predicate DoubledAt(s: seq<int>, from: nat, f: nat, k: nat) {
    from <= f <= |s| && ModeAt(s, from, f).mode == Doubled &&
    var since := ModeAt(s, from, f).since;
    since + k <= f && 0 < since && s[since - 1] != DASH && forall r :: since <= r < f - k ==> !EndScriptAt(s, r)
  }

  /** How many dashes, up to two, end at `f`. */
  predicate Dashes(s: seq<int>, f: nat, n: nat) {
    2 <= f <= |s| &&
    match n
    case 0 => s[f - 1] != DASH
    case 1 => s[f - 1] == DASH && s[f - 2] != DASH
    case _ => s[f - 1] == DASH && s[f - 2] == DASH
  }

  /** `open` and the letters of a name, which folds to `name`, end at `f`. */
  ghost predicate Naming(s: seq<int>, f: nat, n: nat, name: seq<int>) {
    var b := f - |name|;
    1 <= n <= 2 && n <= b && f <= |s| && s[b - n] == LT && (n == 2 ==> s[b - 1] == SLASH)
    && LowerAll(s[b..f]) == name && forall i :: b <= i < f ==> IsAlpha(s[i])
  }

  /** What each state says about the text that was read from `from` up to `f`. */
  ghost predicate Says(s: seq<int>, from: nat, state: LexState, f: nat, mark: nat, name: seq<int>) {
    from <= f <= |s| &&
    match state
    case Script => PlainAt(s, from, f, 0)
    case ScriptLt | ScriptEndTagOpen | ScriptEndTagName => PlainAt(s, from, mark, 0)
    case EscStart => PlainAt(s, from, f, 2) && s[f - 2] == LT && s[f - 1] == BANG
    case EscStartDash => PlainAt(s, from, f, 3) && s[f - 3] == LT && s[f - 2] == BANG && s[f - 1] == DASH
    case Esc => EscapedAt(s, from, f, 0) && Dashes(s, f, 0)
    case EscDash => EscapedAt(s, from, f, 0) && Dashes(s, f, 1)
    case EscDashDash => EscapedAt(s, from, f, 0) && Dashes(s, f, 2)
    case EscLt | EscEndTagOpen | EscEndTagName => EscapedAt(s, from, mark, 0) && mark > 0
    case DblStart => EscapedAt(s, from, f, 1 + |name|) && Naming(s, f, 1, name) && name != []
    case Dbl => DoubledAt(s, from, f, 0) && Dashes(s, f, 0)
    case DblDash => DoubledAt(s, from, f, 0) && Dashes(s, f, 1)
    case DblDashDash => DoubledAt(s, from, f, 0) && Dashes(s, f, 2)
    case DblLt => DoubledAt(s, from, f, 1) && s[f - 1] == LT
    case DblEnd => DoubledAt(s, from, f, 2 + |name|) && Naming(s, f, 2, name)
    case _ => true
  }

  ghost predicate Trace(cx: Context, lx: Lexer, from: nat) {
    Says(cx.input, from, lx.state, Front(lx), lx.mark, lx.scriptBuffer)
  }

  // ---------------------------------------------------------------------------------------
  // Plain text

  lemma PlainPend(s: seq<int>, from: nat, f: nat, k: nat)
    requires PlainAt(s, from, f, k) && k <= 2 && f < |s|
    ensures PlainAt(s, from, f + 1, k + 1)
  {
    hide CommentAt;
  }

  lemma PlainResolved(s: seq<int>, from: nat, f: nat, k: nat)
    requires PlainAt(s, from, f, k) && forall q :: f - k <= q < f ==> !CommentAt(s, q)
    ensures PlainAt(s, from, f, 0)
  {
    hide CommentAt, ModeAt;
  }

  lemma PlainOn(s: seq<int>, from: nat, f: nat)
    requires PlainAt(s, from, f, 0) && f < |s| && !CommentAt(s, f)
    ensures PlainAt(s, from, f + 1, 0)
  {
    hide CommentAt, ModeAt, PlainAt;
    PlainPend(s, from, f, 0);
    PlainResolved(s, from, f + 1, 1);
  }

  lemma {:induction false} PlainRun(s: seq<int>, from: nat, f: nat, n: nat)
    requires PlainAt(s, from, f, 0) && f + n <= |s| && forall q :: f <= q < f + n ==> !CommentAt(s, q)
    ensures PlainAt(s, from, f + n, 0)
    decreases n
  {
    hide CommentAt, PlainAt;
    if n > 0 {
      PlainOn(s, from, f);
      PlainRun(s, from, f + 1, n - 1);
    }
  }

  lemma CommentOpens(s: seq<int>, from: nat, f: nat)
    requires PlainAt(s, from, f, 3) && f < |s| && CommentAt(s, f - 3)
    ensures EscapedAt(s, from, f + 1, 0) && Dashes(s, f + 1, 2)
  {
    hide ScriptTagAt;
    assert ModeAt(s, from, f + 1) == Span(Escaped, f + 1);
  }

  // ---------------------------------------------------------------------------------------
  // Escaped text

  lemma EscapedPend(s: seq<int>, from: nat, f: nat, k: nat)
    requires EscapedAt(s, from, f, k) && f < |s| && s[f] != GT
    requires k < 7 || f < 7 || !ScriptTagAt(s, f - 7)
    ensures EscapedAt(s, from, f + 1, k + 1)
  {
    hide ScriptTagAt, CommentAt;
    assert f >= 2 ==> !ArrowAt(s, f - 2);
    assert ModeAt(s, from, f + 1) == ModeAt(s, from, f);
  }

  lemma EscapedResolved(s: seq<int>, from: nat, f: nat, k: nat)
    requires EscapedAt(s, from, f, k) && forall r :: f - k <= r < f ==> !ScriptTagAt(s, r)
    ensures EscapedAt(s, from, f, 0)
  {
    hide ScriptTagAt, ModeAt;
  }

  /** One more character that neither starts a tag nor ends the escape. */
  lemma EscapedOn(s: seq<int>, from: nat, f: nat)
    requires EscapedAt(s, from, f, 0) && f < |s| && !ScriptTagAt(s, f) && !(2 <= f && ArrowAt(s, f - 2))
    ensures EscapedAt(s, from, f + 1, 0)
  {
    hide ScriptTagAt, CommentAt, ArrowAt;
    assert ModeAt(s, from, f + 1) == ModeAt(s, from, f);
  }

  lemma {:induction false} EscapedRun(s: seq<int>, from: nat, f: nat, n: nat)
    requires EscapedAt(s, from, f, 0) && f + n <= |s|
    requires forall r :: f <= r < f + n ==> !ScriptTagAt(s, r) && s[r] != GT
    ensures EscapedAt(s, from, f + n, 0)
    decreases n
  {
    hide ScriptTagAt, EscapedAt;
    if n > 0 {
      EscapedOn(s, from, f);
      EscapedRun(s, from, f + 1, n - 1);
    }
  }

  lemma EscapedEnds(s: seq<int>, from: nat, f: nat)
    requires EscapedAt(s, from, f, 0) && Dashes(s, f, 2) && f < |s| && s[f] == GT
    ensures PlainAt(s, from, f + 1, 0)
  {
    hide ScriptTagAt, CommentAt;
    assert ArrowAt(s, f - 2);
    assert ModeAt(s, from, f + 1) == Span(Plain, f + 1);
  }

  // ---------------------------------------------------------------------------------------
  // Doubly escaped text

  lemma DoubledPend(s: seq<int>, from: nat, f: nat, k: nat)
    requires DoubledAt(s, from, f, k) && f < |s| && s[f] != GT
    requires k < 8 || f < 8 || !EndScriptAt(s, f - 8)
    ensures DoubledAt(s, from, f + 1, k + 1)
  {
    hide EndScriptAt, CommentAt, ScriptTagAt;
    assert f >= 2 ==> !ArrowAt(s, f - 2);
    assert ModeAt(s, from, f + 1) == ModeAt(s, from, f);
  }

  lemma DoubledResolved(s: seq<int>, from: nat, f: nat, k: nat)
    requires DoubledAt(s, from, f, k) && forall r :: f - k <= r < f ==> !EndScriptAt(s, r)
    ensures DoubledAt(s, from, f, 0)
  {
    hide EndScriptAt, ModeAt;
  }

  lemma DoubledOn(s: seq<int>, from: nat, f: nat)
    requires DoubledAt(s, from, f, 0) && f < |s| && !EndScriptAt(s, f) && !(2 <= f && ArrowAt(s, f - 2))
    ensures DoubledAt(s, from, f + 1, 0)
  {
    hide EndScriptAt, CommentAt, ArrowAt, ScriptTagAt;
    assert ModeAt(s, from, f + 1) == ModeAt(s, from, f);
  }

  lemma DoubledEnds(s: seq<int>, from: nat, f: nat)
    requires DoubledAt(s, from, f, 0) && Dashes(s, f, 2) && f < |s| && s[f] == GT
    ensures PlainAt(s, from, f + 1, 0)
  {
    hide ScriptTagAt, CommentAt, EndScriptAt;
    assert ArrowAt(s, f - 2);
    assert ModeAt(s, from, f + 1) == Span(Plain, f + 1);
  }

  // ---------------------------------------------------------------------------------------
  // Names

  lemma NamingLonger(s: seq<int>, f: nat, n: nat, name: seq<int>)
    requires Naming(s, f, n, name) && f < |s| && IsAlpha(s[f])
    ensures Naming(s, f + 1, n, name + [EnsureLowercase(s[f])])
  {
    hide EnsureLowercase;
    var b := f - |name|;
    assert s[b..f + 1] == s[b..f] + [s[f]];
    LowerStep(s[b..f], s[f]);
  }

  lemma ScriptNamed(s: seq<int>, from: nat, f: nat)
    requires EscapedAt(s, from, f, 7) && Naming(s, f, 1, SCRIPT_NAME) && f < |s| && EndsName(s[f])
    ensures DoubledAt(s, from, f + 1, 0) && Dashes(s, f + 1, 0)
  {
    hide CommentAt, EndScriptAt;
    assert ScriptTagAt(s, f - 7);
    assert !ArrowAt(s, f - 2);
    assert ModeAt(s, from, f + 1) == Span(Doubled, f + 1);
  }

  lemma EndScriptNamed(s: seq<int>, from: nat, f: nat)
    requires DoubledAt(s, from, f, 8) && Naming(s, f, 2, SCRIPT_NAME) && f < |s| && EndsName(s[f])
    ensures EscapedAt(s, from, f + 1, 0) && Dashes(s, f + 1, 0)
  {
    hide CommentAt, ScriptTagAt;
    assert EndScriptAt(s, f - 8);
    assert !ArrowAt(s, f - 2);
    assert ModeAt(s, from, f + 1) == Span(Escaped, f + 1);
  }

  /** A name that is not followed by its end, or is another one, makes no `<script` tag. */
  lemma NotScript(s: seq<int>, f: nat, name: seq<int>)
    requires Naming(s, f, 1, name) && (f < |s| ==> !IsAlpha(s[f]))
    requires name == SCRIPT_NAME ==> f < |s| ==> !EndsName(s[f])
    ensures forall r :: f - 1 - |name| <= r < f ==> !ScriptTagAt(s, r)
  {
    var b := f - |name|;
    forall r | b - 1 <= r < f ensures !ScriptTagAt(s, r) {
      if r == b - 1 { NotThisName(s, b, f, name); }
    }
  }

  lemma NotEndScript(s: seq<int>, f: nat, name: seq<int>)
    requires Naming(s, f, 2, name) && (f < |s| ==> !IsAlpha(s[f]))
    requires name == SCRIPT_NAME ==> f < |s| ==> !EndsName(s[f])
    ensures forall r :: f - 2 - |name| <= r < f ==> !EndScriptAt(s, r)
  {
    var b := f - |name|;
    forall r | b - 2 <= r < f ensures !EndScriptAt(s, r) {
      if r == b - 2 { NotThisName(s, b, f, name); }
    }
  }

  lemma LettersOf(s: seq<int>, b: nat)
    requires b + 6 <= |s| && LowerAll(s[b..b + 6]) == SCRIPT_NAME
    ensures forall i :: b <= i < b + 6 ==> IsAlpha(s[i])
  {
    forall i | b <= i < b + 6 ensures IsAlpha(s[i]) {
      assert LowerAll(s[b..b + 6])[i - b] == EnsureLowercase(s[i]);
    }
  }

  /** Six letters and a terminator from `b` on are a whole name. */
  lemma NotThisName(s: seq<int>, b: nat, f: nat, name: seq<int>)
    requires b <= f <= |s| && LowerAll(s[b..f]) == name && (forall i :: b <= i < f ==> IsAlpha(s[i]))
    requires f < |s| ==> !IsAlpha(s[f])
    requires name == SCRIPT_NAME ==> f < |s| ==> !EndsName(s[f])
    ensures !(b + 7 <= |s| && LowerAll(s[b..b + 6]) == SCRIPT_NAME && EndsName(s[b + 6]))
  {
    hide LowerAll;
    if b + 7 <= |s| && LowerAll(s[b..b + 6]) == SCRIPT_NAME { LettersOf(s, b); }
  }

  /** No `<script` tag where no letter follows. */
  lemma NoLetterNoTag(s: seq<int>, r: nat)
    requires r + 1 < |s| ==> !IsAlpha(s[r + 1])
    ensures !ScriptTagAt(s, r)
  {
    hide LowerAll;
    if r + 8 <= |s| && LowerAll(s[r + 1..r + 7]) == SCRIPT_NAME { LettersOf(s, r + 1); }
  }

  // ---------------------------------------------------------------------------------------
  // Each kind of step, in terms of the input

  /** An escaped character that opens no tag and ends no escape. */
  lemma EscapedChar(s: seq<int>, from: nat, f: nat, n: nat)
    requires EscapedAt(s, from, f, 0) && Dashes(s, f, n) && n <= 2 && f < |s| && s[f] != LT && !(n == 2 && s[f] == GT)
    ensures EscapedAt(s, from, f + 1, 0)
    ensures Dashes(s, f + 1, if s[f] == DASH then if n == 0 then 1 else 2 else 0)
  {
    hide EscapedAt;
    EscapedOn(s, from, f);
  }

  lemma DoubledChar(s: seq<int>, from: nat, f: nat, n: nat)
    requires DoubledAt(s, from, f, 0) && Dashes(s, f, n) && n <= 2 && f < |s| && s[f] != LT && !(n == 2 && s[f] == GT)
    ensures DoubledAt(s, from, f + 1, 0)
    ensures Dashes(s, f + 1, if s[f] == DASH then if n == 0 then 1 else 2 else 0)
  {
    hide DoubledAt;
    DoubledOn(s, from, f);
  }

  /** A name that may become `<script`: it ends as another name, or is given up, or grows. */
  lemma EscapedName(s: seq<int>, from: nat, f: nat, name: seq<int>)
    requires EscapedAt(s, from, f, 1 + |name|) && Naming(s, f, 1, name) && name != []
    ensures f < |s| && EndsName(s[f]) && name != SCRIPT_NAME ==> EscapedAt(s, from, f + 1, 0) && Dashes(s, f + 1, 0)
    ensures f < |s| && IsAlpha(s[f]) ==> EscapedAt(s, from, f + 1, 2 + |name|)
    ensures (f < |s| ==> !EndsName(s[f]) && !IsAlpha(s[f])) ==> EscapedAt(s, from, f, 0) && Dashes(s, f, 0)
  {
    hide EscapedAt, LowerAll;
    if f < |s| && IsAlpha(s[f]) {
      EscapedPend(s, from, f, 1 + |name|);
    } else if f == |s| || !EndsName(s[f]) || name != SCRIPT_NAME {
      NotScript(s, f, name);
      EscapedResolved(s, from, f, 1 + |name|);
      if f < |s| && EndsName(s[f]) { EscapedOn(s, from, f); }
    }
  }

  lemma DoubledName(s: seq<int>, from: nat, f: nat, name: seq<int>)
    requires DoubledAt(s, from, f, 2 + |name|) && Naming(s, f, 2, name)
    ensures f < |s| && EndsName(s[f]) && name != SCRIPT_NAME ==> DoubledAt(s, from, f + 1, 0) && Dashes(s, f + 1, 0)
    ensures f < |s| && IsAlpha(s[f]) ==> DoubledAt(s, from, f + 1, 3 + |name|)
    ensures (f < |s| ==> !EndsName(s[f]) && !IsAlpha(s[f])) ==> DoubledAt(s, from, f, 0) && Dashes(s, f, 0)
  {
    hide DoubledAt, LowerAll;
    if f < |s| && IsAlpha(s[f]) {
      DoubledPend(s, from, f, 2 + |name|);
    } else if f == |s| || !EndsName(s[f]) || name != SCRIPT_NAME {
      NotEndScript(s, f, name);
      DoubledResolved(s, from, f, 2 + |name|);
      if f < |s| && EndsName(s[f]) { DoubledOn(s, from, f); }
    }
  }

  /** The end of a speculative tag that is given up. */
  ghost predicate GivenUp(s: seq<int>, mark: nat, n: nat) {
    && 2 <= n && mark + n <= |s| && s[mark] == LT && s[mark + 1] == SLASH
    && forall i :: mark + 2 <= i < mark + n ==> IsAlpha(s[i])
  }

  lemma PlainGivenUp(s: seq<int>, from: nat, mark: nat, n: nat)
    requires PlainAt(s, from, mark, 0) && GivenUp(s, mark, n)
    ensures PlainAt(s, from, mark + n, 0)
  {
    hide PlainAt;
    PlainRun(s, from, mark, n);
  }

  lemma EscapedGivenUp(s: seq<int>, from: nat, mark: nat, n: nat)
    requires EscapedAt(s, from, mark, 0) && GivenUp(s, mark, n)
    ensures EscapedAt(s, from, mark + n, 0) && Dashes(s, mark + n, 0)
  {
    hide EscapedAt, LowerAll;
    NoLetterNoTag(s, mark);
    EscapedRun(s, from, mark, n);
  }

  // ---------------------------------------------------------------------------------------
  // The steps of the tokenizer

  /** A state that emits the current character, and tells about the text with it. */
  lemma EmittedTraces(cx: Context, lx: Lexer, from: nat, s: LexState, b: seq<int>, c: int)
    requires !lx.reconsume && lx.emit == None && lx.cursor < |cx.input|
    requires Says(cx.input, from, s, lx.cursor + 1, lx.mark, b)
    ensures Trace(cx, Finish(cx, Emit(cx, lx.(state := s, scriptBuffer := b), c)).lx, from)
  {
    hide Says;
  }

  /** Going on, or ending, without using a character. */
  lemma MovedTraces(cx: Context, lx: Lexer, from: nat, s: LexState, r: Step)
    requires !lx.reconsume && lx.emit == None
    requires lx.cursor < |cx.input| ==> r.lx.reconsume
    requires r.lx == lx.(state := s, reconsume := r.lx.reconsume)
    requires Says(cx.input, from, s, lx.cursor, lx.mark, lx.scriptBuffer)
    ensures Trace(cx, Finish(cx, r).lx, from)
  {
    hide Says;
  }

  /** Entering a less-than sign state. */
  lemma OpenedTraces(cx: Context, lx: Lexer, from: nat, s: LexState)
    requires !lx.reconsume && lx.emit == None && from <= lx.cursor < |cx.input| && Less(s)
    requires s == ScriptLt ==> PlainAt(cx.input, from, lx.cursor, 0)
    requires s == EscLt ==> EscapedAt(cx.input, from, lx.cursor, 0) && lx.cursor > 0
    ensures Trace(cx, Finish(cx, OpenTag(lx, s)).lx, from)
  {
    hide PlainAt, EscapedAt, DoubledAt, Dashes, Naming;
  }

  /** In a resting state, inside a call. */
  predicate Still(cx: Context, lx: Lexer, start: nat) {
    !lx.reconsume && lx.emit == None && lx.cursor == start <= |cx.input|
    && (start < |cx.input| ==> cx.input[start] >= 0)
  }

  lemma PlainTextTraces(cx: Context, lx: Lexer, start: nat, from: nat, s: LexState)
    requires Still(cx, lx, start) && Trace(cx, lx, from)
    requires (lx.state == Rawtext && s == RawtextLt) || (lx.state == Script && s == ScriptLt)
    ensures Trace(cx, Finish(cx, PlainText(cx, lx, Current(cx, lx), s)).lx, from)
  {
    hide Finish, Emit, OpenTag, PlainAt, EscapedAt, DoubledAt, Dashes, Naming;
    var c := Current(cx, lx);
    if lx.cursor == |cx.input| { AtEndTraces(cx, lx, from, c); }
    else if c == LT { OpenedTraces(cx, lx, from, s); }
    else {
      if s == ScriptLt { PlainOn(cx.input, from, start); }
      EmittedTraces(cx, lx, from, lx.state, lx.scriptBuffer, if c == 0 then REPLACEMENT else c);
    }
  }

  lemma AtEndTraces(cx: Context, lx: Lexer, from: nat, c: int)
    requires !lx.reconsume && lx.emit == None && lx.cursor == |cx.input| && Trace(cx, lx, from)
    ensures Trace(cx, Finish(cx, Emit(cx, lx, c)).lx, from)
  {
    hide Says;
  }

  lemma EscTraces(cx: Context, lx: Lexer, start: nat, from: nat)
    requires Still(cx, lx, start) && Trace(cx, lx, from)
    requires lx.state == Esc || lx.state == EscDash || lx.state == EscDashDash
    ensures Trace(cx, Turn(cx, lx).lx, from)
  {
    hide Finish, Emit, OpenTag, PlainAt, EscapedAt, DoubledAt, Dashes, Naming;
    var c := Current(cx, lx);
    var n := if lx.state == Esc then 0 else if lx.state == EscDash then 1 else 2;
    DashesBound(cx.input, start, n);
    if lx.cursor == |cx.input| {
      if lx.state == Esc { AtEndTraces(cx, lx, from, c); }
      else { MovedTraces(cx, lx, from, Data, Dispatch(cx, lx)); }
    } else if c == LT { OpenedTraces(cx, lx, from, EscLt); }
    else {
      var s := if c == DASH then if lx.state == Esc then EscDash else EscDashDash
               else if c == GT && lx.state == EscDashDash then Script else Esc;
      if s == Script { EscapedEnds(cx.input, from, start); } else { EscapedChar(cx.input, from, start, n); }
      EmittedTraces(cx, lx, from, s, lx.scriptBuffer, if c == 0 then REPLACEMENT else c);
    }
  }

  lemma DashesBound(s: seq<int>, f: nat, n: nat)
    requires Dashes(s, f, n)
    ensures 2 <= f
  {}

  lemma DblTraces(cx: Context, lx: Lexer, start: nat, from: nat)
    requires Still(cx, lx, start) && Trace(cx, lx, from)
    requires lx.state == Dbl || lx.state == DblDash || lx.state == DblDashDash
    ensures Trace(cx, Turn(cx, lx).lx, from)
  {
    hide Finish, Emit, OpenTag, PlainAt, EscapedAt, DoubledAt, Dashes, Naming;
    var c := Current(cx, lx);
    var n := if lx.state == Dbl then 0 else if lx.state == DblDash then 1 else 2;
    if lx.cursor == |cx.input| { MovedTraces(cx, lx, from, Data, Dispatch(cx, lx)); }
    else {
      var s := if c == DASH then if lx.state == Dbl then DblDash else DblDashDash
               else if c == LT then DblLt
               else if c == GT && lx.state == DblDashDash then Script else Dbl;
      if s == Script { DoubledEnds(cx.input, from, start); }
      else if s == DblLt { DoubledPend(cx.input, from, start, 0); }
      else { DoubledChar(cx.input, from, start, n); }
      EmittedTraces(cx, lx, from, s, lx.scriptBuffer, if c == 0 then REPLACEMENT else c);
    }
  }

  lemma StartTraces(cx: Context, lx: Lexer, start: nat, from: nat)
    requires Still(cx, lx, start) && Trace(cx, lx, from)
    requires lx.state == EscStart || lx.state == EscStartDash
    ensures Trace(cx, Turn(cx, lx).lx, from)
  {
    hide Finish, Emit, OpenTag, PlainAt, EscapedAt, DoubledAt, Dashes, Naming;
    var c, s := Current(cx, lx), cx.input;
    if c == DASH {
      if lx.state == EscStart {
        PlainPend(s, from, start, 2);
        EmittedTraces(cx, lx, from, EscStartDash, lx.scriptBuffer, c);
      } else {
        CommentOpens(s, from, start);
        EmittedTraces(cx, lx, from, EscDashDash, lx.scriptBuffer, c);
      }
    } else {
      PlainResolved(s, from, start, if lx.state == EscStart then 2 else 3);
      MovedTraces(cx, lx, from, Script, Dispatch(cx, lx));
    }
  }

  lemma DblLtTraces(cx: Context, lx: Lexer, start: nat, from: nat)
    requires Still(cx, lx, start) && Trace(cx, lx, from) && lx.state == DblLt
    ensures Trace(cx, Turn(cx, lx).lx, from)
  {
    hide Finish, Emit, OpenTag, PlainAt, EscapedAt, DoubledAt, Dashes, Naming;
    var s := cx.input;
    DoubledBound(s, from, start, 1);
    LessBefore(s, start);
    if Current(cx, lx) == SLASH {
      DoubledPend(s, from, start, 1);
      EmittedTraces(cx, lx, from, DblEnd, [], SLASH);
    } else {
      DoubledResolved(s, from, start, 1);
      MovedTraces(cx, lx, from, Dbl, Dispatch(cx, lx));
    }
  }

  lemma LessBefore(s: seq<int>, f: nat)
    requires 2 <= f <= |s| && s[f - 1] == LT
    ensures Dashes(s, f, 0) && (f < |s| && s[f] == SLASH ==> Naming(s, f + 1, 2, []))
  {
    assert f < |s| ==> s[f + 1..f + 1] == [];
  }

  lemma DoubledBound(s: seq<int>, from: nat, f: nat, k: nat)
    requires DoubledAt(s, from, f, k)
    ensures 0 < f - k
  {}

  /** A name ends, grows, or is given up. */
  lemma NameTraces(cx: Context, lx: Lexer, start: nat, from: nat, yes: LexState, no: LexState)
    requires Still(cx, lx, start)
    requires start < |cx.input| && EndsName(cx.input[start]) ==>
      var s := if lx.scriptBuffer == SCRIPT_NAME then yes else no;
      Says(cx.input, from, s, start + 1, lx.mark, lx.scriptBuffer)
    requires start < |cx.input| && IsAlpha(cx.input[start]) ==>
      Says(cx.input, from, lx.state, start + 1, lx.mark, lx.scriptBuffer + [EnsureLowercase(cx.input[start])])
    requires (start < |cx.input| ==> !EndsName(cx.input[start]) && !IsAlpha(cx.input[start])) ==>
      Says(cx.input, from, no, start, lx.mark, lx.scriptBuffer)
    ensures Trace(cx, Finish(cx, DoubleName(cx, lx, Current(cx, lx), yes, no)).lx, from)
  {
    hide Finish, Emit, Says;
    var c := Current(cx, lx);
    var b := lx.scriptBuffer;
    if EndsName(c) { EmittedTraces(cx, lx, from, if b == SCRIPT_NAME then yes else no, b, c); }
    else if IsAlpha(c) { EmittedTraces(cx, lx, from, lx.state, b + [EnsureLowercase(c)], c); }
    else { MovedTraces(cx, lx, from, no, Step(Reconsume(Go(lx, no)), NextChar)); }
  }

  lemma DblStartTraces(cx: Context, lx: Lexer, start: nat, from: nat)
    requires Still(cx, lx, start) && Trace(cx, lx, from) && lx.state == DblStart
    ensures Trace(cx, Finish(cx, DoubleName(cx, lx, Current(cx, lx), Dbl, Esc)).lx, from)
  {
    hide Finish, Emit, DoubleName, EndsName, IsAlpha, EnsureLowercase, PlainAt, EscapedAt, DoubledAt, Dashes, Naming;
    var s, b := cx.input, lx.scriptBuffer;
    EscapedName(s, from, start, b);
    if start < |s| && IsAlpha(s[start]) { NamingLonger(s, start, 1, b); }
    if start < |s| && EndsName(s[start]) && b == SCRIPT_NAME { ScriptNamed(s, from, start); }
    NameTraces(cx, lx, start, from, Dbl, Esc);
  }

  lemma DblEndTraces(cx: Context, lx: Lexer, start: nat, from: nat)
    requires Still(cx, lx, start) && Trace(cx, lx, from) && lx.state == DblEnd
    ensures Trace(cx, Finish(cx, DoubleName(cx, lx, Current(cx, lx), Esc, Dbl)).lx, from)
  {
    hide Finish, Emit, DoubleName, EndsName, IsAlpha, EnsureLowercase, PlainAt, EscapedAt, DoubledAt, Dashes, Naming;
    var s, b := cx.input, lx.scriptBuffer;
    DoubledName(s, from, start, b);
    if start < |s| && IsAlpha(s[start]) { NamingLonger(s, start, 2, b); }
    if start < |s| && EndsName(s[start]) && b == SCRIPT_NAME { EndScriptNamed(s, from, start); }
    NameTraces(cx, lx, start, from, Esc, Dbl);
  }

  /** A given-up tag: the text goes on after the buffer. */
  lemma GaveUpTraces(cx: Context, from: nat, lx: Lexer)
    requires |lx.temp| > 0
    requires Says(cx.input, from, lx.state, lx.mark + |lx.temp|, lx.mark, lx.scriptBuffer)
    ensures Trace(cx, Finish(cx, EmitTemp(cx, lx)).lx, from)
  {
    hide Says;
  }

  /** A speculative tag that goes on: nothing new. */
  lemma WentOnTraces(cx: Context, lx: Lexer, from: nat, r: Step)
    requires EndOpen(r.lx.state) || EndName(r.lx.state) || !InText(r.lx.state)
    requires r.lx.emit == None && from <= r.lx.cursor <= |cx.input|
    requires (r.lx.state == ScriptEndTagOpen || r.lx.state == ScriptEndTagName) ==> PlainAt(cx.input, from, r.lx.mark, 0)
    requires (r.lx.state == EscEndTagOpen || r.lx.state == EscEndTagName) ==>
      EscapedAt(cx.input, from, r.lx.mark, 0) && r.lx.mark > 0
    ensures Trace(cx, Finish(cx, r).lx, from)
  {
    hide PlainAt, EscapedAt, DoubledAt, Dashes, Naming;
  }

  lemma LessFacts(cx: Context, lx: Lexer, start: nat)
    requires Mid(cx, lx, start) && Less(lx.state)
    ensures lx.mark == start < |cx.input| && lx.temp == [LT] && lx.cursor == start + 1 <= |cx.input|
    ensures cx.input[start] == LT && lx.emit == None && (lx.state == EscLt ==> lx.scriptBuffer == [])
  {
    assert cx.input[start] == lx.temp[0];
  }

  lemma LessTraces(cx: Context, lx: Lexer, start: nat, from: nat)
    requires Mid(cx, lx, start) && Less(lx.state) && Trace(cx, lx, from) && from <= start
    ensures Trace(cx, Turn(cx, lx).lx, from)
  {
    hide Finish, Emit, EmitTemp, Mid, PlainAt, EscapedAt, DoubledAt, Dashes, Naming;
    var c := Current(cx, lx);
    LessFacts(cx, lx, start);
    if c == SLASH { WentOnTraces(cx, lx, from, Dispatch(cx, lx)); }
    else if lx.state == ScriptLt { ScriptLtTraces(cx, lx, start, from); }
    else if lx.state == EscLt { EscLtTraces(cx, lx, start, from); }
    else { GaveUpTraces(cx, from, Reconsume(Go(lx, Rawtext))); }
  }

  lemma ScriptLtTraces(cx: Context, lx: Lexer, start: nat, from: nat)
    requires Mid(cx, lx, start) && lx.state == ScriptLt && Trace(cx, lx, from) && Current(cx, lx) != SLASH
    ensures Trace(cx, Turn(cx, lx).lx, from)
  {
    hide Finish, Emit, EmitTemp, Mid, PlainAt, EscapedAt, DoubledAt, Dashes, Naming;
    var c, s := Current(cx, lx), cx.input;
    LessFacts(cx, lx, start);
    if c == BANG {
      PlainPend(s, from, start, 0);
      PlainPend(s, from, start + 1, 1);
      GaveUpTraces(cx, from, Append(Go(lx, EscStart), c));
    } else {
      PlainOn(s, from, start);
      GaveUpTraces(cx, from, Reconsume(Go(lx, Script)));
    }
  }

  lemma EscLtTraces(cx: Context, lx: Lexer, start: nat, from: nat)
    requires Mid(cx, lx, start) && lx.state == EscLt && Trace(cx, lx, from) && Current(cx, lx) != SLASH
    ensures Trace(cx, Turn(cx, lx).lx, from)
  {
    hide Finish, Emit, EmitTemp, Mid, EnsureLowercase, PlainAt, EscapedAt, DoubledAt, Naming;
    var c, s := Current(cx, lx), cx.input;
    LessFacts(cx, lx, start);
    if IsAlpha(c) {
      EscapedPend(s, from, start, 0);
      EscapedPend(s, from, start + 1, 1);
      NamingStarts(s, start);
      GaveUpTraces(cx, from, Append(Go(lx, DblStart), c).(scriptBuffer := lx.scriptBuffer + [EnsureLowercase(c)]));
    } else {
      NoLetterNoTag(s, start);
      EscapedOn(s, from, start);
      GaveUpTraces(cx, from, Go(lx, Esc));
    }
  }

  lemma NamingStarts(s: seq<int>, start: nat)
    requires start + 1 < |s| && s[start] == LT && IsAlpha(s[start + 1])
    ensures Naming(s, start + 2, 1, [] + [EnsureLowercase(s[start + 1])])
  {
    assert s[start + 1..start + 2] == [s[start + 1]];
  }

  /** The states of a speculative end tag, and the text state they fall back to. */
  predicate Falls(s: LexState, name: LexState, text: LexState) {
    || (Raw(s) && name == RawtextEndTagName && text == Rawtext)
    || ((s == ScriptEndTagOpen || s == ScriptEndTagName) && name == ScriptEndTagName && text == Script)
    || ((s == EscEndTagOpen || s == EscEndTagName) && name == EscEndTagName && text == Esc)
  }

  lemma GaveUpNameTraces(cx: Context, lx: Lexer, start: nat, from: nat, name: LexState, text: LexState)
    requires Mid(cx, lx, start) && (EndOpen(lx.state) || EndName(lx.state)) && Trace(cx, lx, from)
    requires Falls(lx.state, name, text)
    ensures Trace(cx, Finish(cx, EmitTemp(cx, Go(lx, text))).lx, from)
  {
    hide Finish, EmitTemp, Mid, PlainAt, EscapedAt, DoubledAt, Dashes, Naming, GivenUp;
    BufferText(cx, lx, start);
    if text == Script { PlainGivenUp(cx.input, from, lx.mark, |lx.temp|); }
    if text == Esc { EscapedGivenUp(cx.input, from, lx.mark, |lx.temp|); }
    GaveUpTraces(cx, from, Go(lx, text));
  }

  lemma BufferText(cx: Context, lx: Lexer, start: nat)
    requires Mid(cx, lx, start) && (EndOpen(lx.state) || EndName(lx.state))
    ensures 2 <= |lx.temp| && lx.mark + |lx.temp| == lx.cursor <= |cx.input| && lx.emit == None
    ensures GivenUp(cx.input, lx.mark, |lx.temp|)
  {
    hide LowerAll, Mirrors, IsAlpha;
    BufferIs(cx, lx);
    var s, t := cx.input, lx.temp;
    assert t[0] == s[lx.mark] && t[1] == s[lx.mark + 1];
    forall i | lx.mark + 2 <= i < lx.mark + |t| ensures IsAlpha(s[i]) { assert s[i] == t[i - lx.mark]; }
  }

  lemma BufferIs(cx: Context, lx: Lexer)
    requires Mirrors(cx, lx)
    ensures lx.mark + |lx.temp| <= |cx.input|
    ensures forall i :: 0 <= i < |lx.temp| ==> lx.temp[i] == cx.input[lx.mark + i]
  {}

  lemma EndOpenTraces(cx: Context, lx: Lexer, start: nat, from: nat, name: LexState, text: LexState)
    requires Mid(cx, lx, start) && EndOpen(lx.state) && Trace(cx, lx, from) && Falls(lx.state, name, text)
    ensures Trace(cx, Finish(cx, EndTagOpen(cx, lx, Current(cx, lx), name, text)).lx, from)
  {
    hide Finish, EmitTemp, Mid, PlainAt, EscapedAt, DoubledAt, Dashes, Naming, GivenUp;
    BufferText(cx, lx, start);
    var c := Current(cx, lx);
    if IsAlpha(c) { WentOnTraces(cx, lx, from, EndTagOpen(cx, lx, c, name, text)); }
    else { GaveUpNameTraces(cx, lx, start, from, name, text); }
  }

  lemma EndNameTraces(cx: Context, lx: Lexer, start: nat, from: nat, text: LexState)
    requires Mid(cx, lx, start) && EndName(lx.state) && Trace(cx, lx, from) && Falls(lx.state, lx.state, text)
    ensures Trace(cx, Finish(cx, EndTagName(cx, lx, Current(cx, lx), text)).lx, from)
  {
    hide Finish, EmitTemp, Mid, PlainAt, EscapedAt, DoubledAt, Dashes, Naming, GivenUp;
    BufferText(cx, lx, start);
    var c := Current(cx, lx);
    if IsAlpha(c) || (Appropriate(cx, lx.tagBuffer) && EndsName(c)) {
      WentOnTraces(cx, lx, from, EndTagName(cx, lx, c, text));
    } else { GaveUpNameTraces(cx, lx, start, from, lx.state, text); }
  }

  /** Every pass of the loop keeps what the states say. */
  lemma TurnTraces(cx: Context, lx: Lexer, start: nat, from: nat)
    requires CodePoints(cx) && Mid(cx, lx, start) && from <= start && Trace(cx, lx, from)
    ensures Trace(cx, Turn(cx, lx).lx, from)
  {
    hide Finish, NameEnd, EmitTemp, EndTagName, EndTagOpen, PlainText, DoubleName, Speculating, CodePoints,
      Trace, EmitCurrent;
    assert Resting(lx.state) ==> Still(cx, lx, start) by { StillHere(cx, lx, start); }
    match lx.state
    case Rawtext => PlainTextTraces(cx, lx, start, from, RawtextLt);
    case Script => PlainTextTraces(cx, lx, start, from, ScriptLt);
    case RawtextEndTagOpen => EndOpenTraces(cx, lx, start, from, RawtextEndTagName, Rawtext);
    case ScriptEndTagOpen => EndOpenTraces(cx, lx, start, from, ScriptEndTagName, Script);
    case EscEndTagOpen => EndOpenTraces(cx, lx, start, from, EscEndTagName, Esc);
    case RawtextEndTagName => EndNameTraces(cx, lx, start, from, Rawtext);
    case ScriptEndTagName => EndNameTraces(cx, lx, start, from, Script);
    case EscEndTagName => EndNameTraces(cx, lx, start, from, Esc);
    case RawtextLt | ScriptLt | EscLt => LessTraces(cx, lx, start, from);
    case Esc | EscDash | EscDashDash => EscTraces(cx, lx, start, from);
    case Dbl | DblDash | DblDashDash => DblTraces(cx, lx, start, from);
    case EscStart | EscStartDash => StartTraces(cx, lx, start, from);
    case DblLt => DblLtTraces(cx, lx, start, from);
    case DblStart => DblStartTraces(cx, lx, start, from);
    case DblEnd => DblEndTraces(cx, lx, start, from);
    case _ => DataTraces(cx, lx, start, from);
  }

  lemma StillHere(cx: Context, lx: Lexer, start: nat)
    requires CodePoints(cx) && Mid(cx, lx, start)
    ensures Resting(lx.state) ==> Still(cx, lx, start)
  {
    hide Speculating;
  }

  lemma DataTraces(cx: Context, lx: Lexer, start: nat, from: nat)
    requires Mid(cx, lx, start) && !InText(lx.state) && from <= start
    ensures Trace(cx, Turn(cx, lx).lx, from)
  {
    hide PlainAt, EscapedAt, DoubledAt, Dashes, Naming;
  }
}
