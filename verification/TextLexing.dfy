/** What the text states deliver over successive calls: the input, code point by code point, up to
    an appropriate end tag. */
module TextLexing {
  import opened Options
  import opened TextTokenizer

  // ---------------------------------------------------------------------------------------
  // The specification, in terms of the input alone

  /** What a code point of the input looks like in the text. */
  function Shown(c: int): int { if c == 0 then REPLACEMENT else c }

  function ShownAll(s: seq<int>): (r: seq<int>)
    ensures |r| == |s|
  {
    seq(|s|, i requires 0 <= i < |s| => Shown(s[i]))
  }

  function LowerAll(s: seq<int>): (r: seq<int>)
    ensures |r| == |s|
  {
    seq(|s|, i requires 0 <= i < |s| => EnsureLowercase(s[i]))
  }

  /** The end of the run of letters that starts at `i`. */
  function NameEnd(input: seq<int>, i: nat): (e: nat)
    requires i <= |input|
    ensures i <= e <= |input|
    ensures forall j :: i <= j < e ==> IsAlpha(input[j])
    ensures e < |input| ==> !IsAlpha(input[e])
    decreases |input| - i
  {
    if i < |input| && IsAlpha(input[i]) then NameEnd(input, i + 1) else i
  }

  /** An end tag that closes the element at hand starts at `p`: `</`, its name in any case, and
      white space, `/` or `>`. */
  predicate TagAt(cx: Context, p: nat) {
    && p + 2 < |cx.input| && cx.input[p] == LT && cx.input[p + 1] == SLASH
    && var e := NameEnd(cx.input, p + 2);
       && p + 2 < e < |cx.input|
       && Appropriate(cx, LowerAll(cx.input[p + 2..e]))
       && EndsName(cx.input[e])
  }

  /** Behind the name of a tag at `p` and the character that ends the name: `>` finishes the tag there,
      anything else leads on to its attributes. */
  predicate PastName(cx: Context, p: nat, finished: bool, cursor: nat) {
    && p + 2 <= |cx.input|
    && var e := NameEnd(cx.input, p + 2); e < |cx.input| && cursor == e + 1 && (finished <==> cx.input[e] == GT)
  }

  /** Where the tokenizer goes on behind the name of a tag that is not finished: a slash may close the tag
      itself, white space leads to attributes. */
  predicate GoesOnIn(cx: Context, p: nat, state: LexState) {
    && p + 2 <= |cx.input|
    && var e := NameEnd(cx.input, p + 2);
       e < |cx.input| && if cx.input[e] == SLASH then state == SelfClosing else IsSpace(cx.input[e]) && state == BeforeAttrName
  }

  // ---------------------------------------------------------------------------------------
  // Invariants

  predicate CodePoints(cx: Context) { forall i :: 0 <= i < |cx.input| ==> cx.input[i] >= 0 }

  predicate EndName(s: LexState) { s == RawtextEndTagName || s == ScriptEndTagName || s == EscEndTagName }

  predicate EndOpen(s: LexState) { s == RawtextEndTagOpen || s == ScriptEndTagOpen || s == EscEndTagOpen }

  predicate Less(s: LexState) { s == RawtextLt || s == ScriptLt || s == EscLt }

  predicate Resting(s: LexState) { InText(s) && !EndName(s) && !EndOpen(s) && !Less(s) }

  predicate Double(s: LexState) {
    s == Dbl || s == DblDash || s == DblDashDash || s == DblLt || s == DblEnd
  }

  predicate Raw(s: LexState) {
    s == Rawtext || s == RawtextLt || s == RawtextEndTagOpen || s == RawtextEndTagName
  }

  /** The temporary buffer holds the input from the mark; only its first character is a `<`. */
  predicate Mirrors(cx: Context, lx: Lexer) {
    && lx.mark + |lx.temp| <= |cx.input|
    && lx.temp == cx.input[lx.mark..lx.mark + |lx.temp|]
    && forall i :: 0 <= i < |lx.temp| ==> lx.temp[i] > 0 && (i > 0 ==> lx.temp[i] != LT)
  }

  /** Between two calls. While flushing, the unsent part of the buffer is the input at the cursor. */
  predicate Between(cx: Context, lx: Lexer) {
    && Resting(lx.state) && !lx.reconsume && lx.cursor <= |cx.input|
    && (lx.emit.Some? ==>
      && 0 < lx.emit.value <= |lx.temp| && lx.cursor == lx.mark + lx.emit.value && Mirrors(cx, lx))
  }

  predicate Speculating(cx: Context, lx: Lexer, start: nat) {
    && lx.mark == start && lx.cursor == start + |lx.temp| && Mirrors(cx, lx)
    && |lx.temp| > 0 && lx.temp[0] == LT
    && (Less(lx.state) ==> |lx.temp| == 1)
    && (lx.state == EscLt ==> lx.scriptBuffer == [])
    && (EndOpen(lx.state) ==> |lx.temp| == 2 && lx.temp[1] == SLASH)
    && (EndName(lx.state) ==>
      && |lx.temp| > 2 && lx.temp[1] == SLASH
      && (forall i :: 2 <= i < |lx.temp| ==> IsAlpha(lx.temp[i]))
      && lx.tagBuffer == LowerAll(lx.temp[2..]))
  }

  /** Inside a call that has yet to account for the input from `start` on. */
  predicate Mid(cx: Context, lx: Lexer, start: nat) {
    && !lx.reconsume && lx.emit == None && start <= lx.cursor <= |cx.input|
    && (InText(lx.state) || lx.state == Data)
    && (lx.state == Data ==> start == |cx.input|)
    && (if Resting(lx.state) then lx.cursor == start
        else lx.state != Data ==> Speculating(cx, lx, start))
  }

  /** The end of a pass of the tokenizer's loop, after the state function. */
  function Finish(cx: Context, r: Step): Step {
    var lx := r.lx.(reconsume := false);
    Step(if r.result == NextChar && !r.lx.reconsume then Advance(cx, lx) else lx, r.result)
  }

  /** One pass of the tokenizer's loop. */
  function Turn(cx: Context, lx: Lexer): Step
    requires InText(lx.state) || lx.state == Data
  {
    Finish(cx, Dispatch(cx, lx))
  }

  /** Text states that can be entered without a character of input being used come last. */
  function Rank(s: LexState): nat {
    if s == Data then 0 else if s == Rawtext || s == Script || s == Esc || s == Dbl then 1 else 2
  }

  function Remaining(cx: Context, lx: Lexer): nat {
    (if lx.cursor <= |cx.input| then |cx.input| - lx.cursor else 0) * 3 + Rank(lx.state)
  }

  /** What a pass may do: use up the code point at `start`, find the end, find a tag, or go on. */
  ghost predicate Accounts(cx: Context, lx: Lexer, start: nat, r: Step) {
    match r.result
    case Failed => false
    case NextChar =>
      if r.lx.state == BeforeAttrName || r.lx.state == SelfClosing
      then TagAt(cx, start) && EndName(lx.state) && PastName(cx, start, false, r.lx.cursor) && GoesOnIn(cx, start, r.lx.state)
      else Mid(cx, r.lx, start) && Remaining(cx, r.lx) < Remaining(cx, lx)
           && (Double(r.lx.state) ==> Double(lx.state)) && (Raw(lx.state) <==> Raw(r.lx.state))
    case Done(Char(c)) =>
      && start < |cx.input| && c == Shown(cx.input[start])
      && Between(cx, r.lx) && r.lx.cursor == start + 1
      && (Raw(lx.state) <==> Raw(r.lx.state))
      && (TagAt(cx, start) ==> Double(lx.state))
    case Done(Eof) => start == |cx.input|
    case Done(EndTag(t)) =>
      && TagAt(cx, start) && EndName(lx.state) && cx.lastStartTag == Some(t) && r.lx.state == Data
      && PastName(cx, start, true, r.lx.cursor)
    case Done(LeftText) => false
  }

  // ---------------------------------------------------------------------------------------
  // Every pass accounts for the input

  lemma NameEndIs(input: seq<int>, i: nat, e: nat)
    requires i <= e <= |input|
    requires forall j :: i <= j < e ==> IsAlpha(input[j])
    requires e < |input| ==> !IsAlpha(input[e])
    ensures NameEnd(input, i) == e
    decreases e - i
  {
    if i < e { NameEndIs(input, i + 1, e); }
  }

  lemma NoTagHere(cx: Context, start: nat)
    requires start < |cx.input| ==> cx.input[start] != LT
    ensures !TagAt(cx, start)
  {
    hide NameEnd;
  }

  predicate Stays(s: LexState, s': LexState) { (Double(s') ==> Double(s)) && (Raw(s) <==> Raw(s')) }

  /** A resting state that emits the current character. */
  lemma Emitted(cx: Context, lx: Lexer, start: nat, s: LexState, b: seq<int>, c: int)
    requires CodePoints(cx) && Mid(cx, lx, start) && Resting(lx.state) && Resting(s)
    requires Raw(lx.state) <==> Raw(s)
    requires c == if Current(cx, lx) == 0 then REPLACEMENT else Current(cx, lx)
    requires Current(cx, lx) == LT ==> Double(lx.state)
    ensures Accounts(cx, lx, start, Finish(cx, Emit(cx, lx.(state := s, scriptBuffer := b), c)))
  {
    hide NameEnd, TagAt, Raw;
    if start < |cx.input| && cx.input[start] != LT { NoTagHere(cx, start); }
  }

  lemma Reconsumed(cx: Context, lx: Lexer, start: nat, s: LexState)
    requires CodePoints(cx) && Mid(cx, lx, start) && Resting(lx.state) && Resting(s)
    requires Stays(lx.state, s) && Rank(s) < Rank(lx.state)
    ensures Accounts(cx, lx, start, Finish(cx, Step(Reconsume(Go(lx, s)), NextChar)))
  {
    hide NameEnd, TagAt, Raw, Double;
  }

  lemma WentToData(cx: Context, lx: Lexer, start: nat)
    requires CodePoints(cx) && Mid(cx, lx, start) && Resting(lx.state)
    requires Current(cx, lx) == -1 && !Raw(lx.state)
    ensures Accounts(cx, lx, start, Finish(cx, Step(Go(lx, Data), NextChar)))
  {
    hide NameEnd, TagAt;
  }

  lemma TagOpened(cx: Context, lx: Lexer, start: nat, s: LexState)
    requires CodePoints(cx) && Mid(cx, lx, start) && Resting(lx.state) && Less(s)
    requires Stays(lx.state, s) && Current(cx, lx) == LT
    ensures Accounts(cx, lx, start, Finish(cx, OpenTag(lx, s)))
  {
    hide NameEnd, TagAt, Raw, Double;
  }

  lemma PlainTextTurn(cx: Context, lx: Lexer, start: nat, s: LexState)
    requires CodePoints(cx) && Mid(cx, lx, start) && Resting(lx.state) && Less(s)
    requires Stays(lx.state, s)
    ensures Accounts(cx, lx, start, Finish(cx, PlainText(cx, lx, Current(cx, lx), s)))
  {
    hide Accounts, Finish, Mid, CodePoints;
    var c := Current(cx, lx);
    if c == LT { TagOpened(cx, lx, start, s); }
    else { Emitted(cx, lx, start, lx.state, lx.scriptBuffer, if c == 0 then REPLACEMENT else c); }
  }

  lemma EscTurn(cx: Context, lx: Lexer, start: nat)
    requires CodePoints(cx) && Mid(cx, lx, start)
    requires lx.state == Esc || lx.state == EscDash || lx.state == EscDashDash
    ensures Accounts(cx, lx, start, Turn(cx, lx))
  {
    hide Accounts, Finish, Mid, CodePoints;
    var c := Current(cx, lx);
    var b := lx.scriptBuffer;
    if c == LT { TagOpened(cx, lx, start, EscLt); }
    else if c == -1 {
      if lx.state == Esc { Emitted(cx, lx, start, Esc, b, c); } else { WentToData(cx, lx, start); }
    } else {
      var s := if c == DASH then if lx.state == Esc then EscDash else EscDashDash
               else if c == GT && lx.state == EscDashDash then Script else Esc;
      Emitted(cx, lx, start, s, b, if c == 0 then REPLACEMENT else c);
    }
  }

  lemma DblTurn(cx: Context, lx: Lexer, start: nat)
    requires CodePoints(cx) && Mid(cx, lx, start)
    requires lx.state == Dbl || lx.state == DblDash || lx.state == DblDashDash
    ensures Accounts(cx, lx, start, Turn(cx, lx))
  {
    hide Accounts, Finish, Mid, CodePoints;
    var c := Current(cx, lx);
    if c == -1 { WentToData(cx, lx, start); }
    else {
      var s := if c == DASH then if lx.state == Dbl then DblDash else DblDashDash
               else if c == LT then DblLt
               else if c == GT && lx.state == DblDashDash then Script else Dbl;
      Emitted(cx, lx, start, s, lx.scriptBuffer, if c == 0 then REPLACEMENT else c);
    }
  }

  lemma DashTurn(cx: Context, lx: Lexer, start: nat, dash: LexState)
    requires CodePoints(cx) && Mid(cx, lx, start) && Resting(lx.state) && Rank(lx.state) == 2
    requires Resting(dash) && !Raw(lx.state) && !Raw(dash)
    ensures Accounts(cx, lx, start, Finish(cx, DashOr(cx, lx, Current(cx, lx), dash)))
  {
    hide Accounts, Finish, Mid, CodePoints;
    if Current(cx, lx) == DASH { Emitted(cx, lx, start, dash, lx.scriptBuffer, DASH); }
    else { Reconsumed(cx, lx, start, Script); }
  }

  lemma DblLtTurn(cx: Context, lx: Lexer, start: nat)
    requires CodePoints(cx) && Mid(cx, lx, start) && lx.state == DblLt
    ensures Accounts(cx, lx, start, Finish(cx, DblLtState(cx, lx, Current(cx, lx))))
  {
    hide Accounts, Finish, Mid, CodePoints;
    if Current(cx, lx) == SLASH { Emitted(cx, lx, start, DblEnd, [], SLASH); }
    else { Reconsumed(cx, lx, start, Dbl); }
  }

  lemma NameTurn(cx: Context, lx: Lexer, start: nat, yes: LexState, no: LexState)
    requires CodePoints(cx) && Mid(cx, lx, start) && Resting(lx.state) && Rank(lx.state) == 2
    requires Resting(yes) && Resting(no) && Rank(no) == 1 && Stays(lx.state, no) && !Raw(lx.state) && !Raw(yes)
    ensures Accounts(cx, lx, start, Finish(cx, DoubleName(cx, lx, Current(cx, lx), yes, no)))
  {
    hide Accounts, Finish, Mid, CodePoints, Resting, Double, Raw;
    var c := Current(cx, lx);
    var b := lx.scriptBuffer;
    if EndsName(c) { Emitted(cx, lx, start, if b == SCRIPT_NAME then yes else no, b, c); }
    else if IsAlpha(c) { Emitted(cx, lx, start, lx.state, b + [EnsureLowercase(c)], c); }
    else { Reconsumed(cx, lx, start, no); }
  }

  /** Giving up a speculative tag sends its first character and leaves the rest to flush. */
  lemma GaveUp(cx: Context, lx: Lexer, start: nat, lx': Lexer)
    requires CodePoints(cx) && Mid(cx, lx, start) && !Resting(lx.state) && lx.state != Data
    requires Resting(lx'.state) && (Raw(lx.state) <==> Raw(lx'.state)) && lx'.mark == start
    requires Mirrors(cx, lx') && |lx'.temp| > 0 && lx'.temp[0] == LT
    requires !TagAt(cx, start)
    ensures Accounts(cx, lx, start, Finish(cx, EmitTemp(cx, lx')))
  {
    hide NameEnd, TagAt, Raw, Double, Speculating;
    assert lx'.temp[0] == cx.input[start];
  }

  /** The buffer grows with the input. */
  lemma MirrorsAppend(cx: Context, lx: Lexer, c: int)
    requires Mirrors(cx, lx) && c == Current(cx, lx) && lx.cursor == lx.mark + |lx.temp|
    requires c > 0 && c != LT
    ensures lx.cursor < |cx.input| && Mirrors(cx, Append(lx, c))
  {
    var t := lx.temp + [c];
    assert t == cx.input[lx.mark..lx.mark + |t|];
  }

  lemma LessTurn(cx: Context, lx: Lexer, start: nat)
    requires CodePoints(cx) && Mid(cx, lx, start) && Less(lx.state)
    ensures Accounts(cx, lx, start, Turn(cx, lx))
  {
    hide NameEnd, Finish, Accounts, Raw, EmitTemp, Dispatch, TagAt, Turn;
    if Current(cx, lx) == SLASH { SlashTurn(cx, lx, start); }
    else {
      NoSlash(cx, start);
      LessGaveUp(cx, lx, start);
    }
  }

  lemma NoSlash(cx: Context, start: nat)
    requires start + 1 < |cx.input| ==> cx.input[start + 1] != SLASH
    ensures !TagAt(cx, start)
  {
    hide NameEnd;
  }

  lemma SlashTurn(cx: Context, lx: Lexer, start: nat)
    requires CodePoints(cx) && Mid(cx, lx, start) && Less(lx.state) && Current(cx, lx) == SLASH
    ensures Accounts(cx, lx, start, Turn(cx, lx))
  {
    hide NameEnd, TagAt;
    MirrorsAppend(cx, lx, SLASH);
  }

  lemma LessGaveUp(cx: Context, lx: Lexer, start: nat)
    requires CodePoints(cx) && Mid(cx, lx, start) && Less(lx.state) && Current(cx, lx) != SLASH
    requires !TagAt(cx, start)
    ensures Accounts(cx, lx, start, Turn(cx, lx))
  {
    hide NameEnd, TagAt, Accounts, Finish, EmitTemp;
    var c := Current(cx, lx);
    if (c == BANG && lx.state == ScriptLt) || (lx.state == EscLt && IsAlpha(c)) {
      LessGrew(cx, lx, start);
    } else {
      var s := if lx.state == RawtextLt then Rawtext else if lx.state == ScriptLt then Script else Esc;
      GaveUp(cx, lx, start, if lx.state == EscLt then Go(lx, s) else Reconsume(Go(lx, s)));
    }
  }

  lemma LessGrew(cx: Context, lx: Lexer, start: nat)
    requires CodePoints(cx) && Mid(cx, lx, start) && !TagAt(cx, start)
    requires if lx.state == ScriptLt then Current(cx, lx) == BANG
             else lx.state == EscLt && IsAlpha(Current(cx, lx))
    ensures Accounts(cx, lx, start, Turn(cx, lx))
  {
    hide NameEnd, TagAt, Accounts, Finish, EmitTemp, Mirrors, EnsureLowercase;
    var c := Current(cx, lx);
    MirrorsAppend(cx, lx, c);
    SameMirrors(cx, Append(lx, c), Append(Go(lx, EscStart), c));
    SameMirrors(cx, Append(lx, c), Append(Go(lx, DblStart), c).(scriptBuffer := lx.scriptBuffer + [EnsureLowercase(c)]));
    if lx.state == ScriptLt {
      GaveUp(cx, lx, start, Append(Go(lx, EscStart), c));
    } else {
      GaveUp(cx, lx, start,
             Append(Go(lx, DblStart), c).(scriptBuffer := lx.scriptBuffer + [EnsureLowercase(c)]));
    }
  }

  lemma SameMirrors(cx: Context, lx: Lexer, lx': Lexer)
    requires Mirrors(cx, lx) && lx'.mark == lx.mark && lx'.temp == lx.temp
    ensures Mirrors(cx, lx')
  {}

  /** The name grows by a letter. */
  lemma NameGrew(cx: Context, lx: Lexer, start: nat, s: LexState, b: seq<int>)
    requires CodePoints(cx) && Mid(cx, lx, start) && (EndOpen(lx.state) || EndName(lx.state))
    requires IsAlpha(Current(cx, lx)) && EndName(s) && Stays(lx.state, s)
    requires b == if EndOpen(lx.state) then [] else lx.tagBuffer
    ensures var c := Current(cx, lx);
      Accounts(cx, lx, start,
        Finish(cx, Step(Append(Go(lx, s).(tagBuffer := b + [EnsureLowercase(c)]), c), NextChar)))
  {
    hide NameEnd, TagAt, Raw, Double, Speculating, Accounts, EnsureLowercase, Resting, EndName, EndOpen,
      InText, CodePoints, IsAlpha, Mid, Remaining;
    LongerName(cx, lx, start, s, b);
    var c := Current(cx, lx);
    var lx' := Append(Go(lx, s).(tagBuffer := b + [EnsureLowercase(c)], cursor := lx.cursor + 1), c);
    WentOn(cx, lx, start, lx');
  }

  lemma WentOn(cx: Context, lx: Lexer, start: nat, lx': Lexer)
    requires Mid(cx, lx, start)
    requires lx'.reconsume == lx.reconsume && lx'.emit == lx.emit
    requires lx'.cursor == lx.cursor + 1 <= |cx.input| && EndName(lx'.state) && Stays(lx.state, lx'.state)
    requires Speculating(cx, lx', start)
    ensures !lx.reconsume && Accounts(cx, lx, start, Step(lx', NextChar))
  {
    hide NameEnd, TagAt, Raw, Double, Speculating;
  }

  /** `</` and letters, with the lower-case name `b`. */
  predicate NameSoFar(cx: Context, lx: Lexer, start: nat, b: seq<int>) {
    && lx.mark == start && lx.cursor == start + |lx.temp| && Mirrors(cx, lx)
    && |lx.temp| >= 2 && lx.temp[0] == LT && lx.temp[1] == SLASH
    && (forall i :: 2 <= i < |lx.temp| ==> IsAlpha(lx.temp[i]))
    && b == LowerAll(lx.temp[2..])
  }

  lemma LongerName(cx: Context, lx: Lexer, start: nat, s: LexState, b: seq<int>)
    requires Mid(cx, lx, start) && (EndOpen(lx.state) || EndName(lx.state))
    requires IsAlpha(Current(cx, lx)) && EndName(s)
    requires b == if EndOpen(lx.state) then [] else lx.tagBuffer
    ensures var c := Current(cx, lx);
      lx.cursor < |cx.input| &&
      Speculating(cx, Append(Go(lx, s).(tagBuffer := b + [EnsureLowercase(c)], cursor := lx.cursor + 1), c), start)
  {
    hide Mid, Mirrors, EnsureLowercase, LowerAll, NameSoFar, IsAlpha, Speculating;
    NameFrom(cx, lx, start, b);
    var c := Current(cx, lx);
    var lx' := Append(Go(lx, s).(tagBuffer := b + [EnsureLowercase(c)], cursor := lx.cursor + 1), c);
    NameOn(cx, lx, start, b, lx');
    NameSpeculates(cx, lx', start);
  }

  lemma NameFrom(cx: Context, lx: Lexer, start: nat, b: seq<int>)
    requires Mid(cx, lx, start) && (EndOpen(lx.state) || EndName(lx.state))
    requires b == if EndOpen(lx.state) then [] else lx.tagBuffer
    ensures NameSoFar(cx, lx, start, b)
  {
    hide Mirrors, LowerAll;
    LowerStep([], 0);
    assert EndOpen(lx.state) ==> lx.temp[2..] == [];
  }

  lemma NameOn(cx: Context, lx: Lexer, start: nat, b: seq<int>, lx': Lexer)
    requires NameSoFar(cx, lx, start, b) && IsAlpha(Current(cx, lx))
    requires lx'.mark == lx.mark && lx'.temp == lx.temp + [Current(cx, lx)] && lx'.cursor == lx.cursor + 1
    ensures lx.cursor < |cx.input| && |lx'.temp| > 2
    ensures NameSoFar(cx, lx', start, b + [EnsureLowercase(Current(cx, lx))])
  {
    hide Mirrors, LowerAll;
    var c := Current(cx, lx);
    MirrorsAppend(cx, lx, c);
    SameMirrors(cx, Append(lx, c), lx');
    assert lx'.temp[2..] == lx.temp[2..] + [c];
    LowerStep(lx.temp[2..], c);
  }

  lemma NameSpeculates(cx: Context, lx: Lexer, start: nat)
    requires NameSoFar(cx, lx, start, lx.tagBuffer) && EndName(lx.state) && |lx.temp| > 2
    ensures Speculating(cx, lx, start)
  {
    hide Mirrors, LowerAll;
  }

  lemma LowerStep(s: seq<int>, c: int)
    ensures LowerAll(s + [c]) == LowerAll(s) + [EnsureLowercase(c)] && LowerAll([]) == []
  {}

  lemma NoName(cx: Context, start: nat, p: nat)
    requires p == start + 2 <= |cx.input| && (p < |cx.input| ==> !IsAlpha(cx.input[p]))
    ensures !TagAt(cx, start)
  {
    NameEndIs(cx.input, p, p);
  }

  lemma EndOpenTurn(cx: Context, lx: Lexer, start: nat, name: LexState, text: LexState)
    requires CodePoints(cx) && Mid(cx, lx, start) && EndOpen(lx.state)
    requires EndName(name) && Resting(text) && Stays(lx.state, name) && Stays(lx.state, text)
    ensures Accounts(cx, lx, start, Finish(cx, EndTagOpen(cx, lx, Current(cx, lx), name, text)))
  {
    hide NameEnd, Accounts, Finish, EmitTemp, Raw, Double, TagAt;
    var c := Current(cx, lx);
    if IsAlpha(c) {
      var none: seq<int> := [];
      assert none + [EnsureLowercase(c)] == [EnsureLowercase(c)];
      NameGrew(cx, lx, start, name, none);
    } else {
      NoName(cx, start, lx.cursor);
      GaveUp(cx, lx, start, Go(lx, text));
    }
  }

  /** The name in the tag buffer is the one at `start`. */
  lemma NameHere(cx: Context, lx: Lexer, start: nat)
    requires Mid(cx, lx, start) && EndName(lx.state) && !IsAlpha(Current(cx, lx))
    ensures TagAt(cx, start) <==> Appropriate(cx, lx.tagBuffer) && EndsName(Current(cx, lx))
    ensures start + 2 <= |cx.input| && NameEnd(cx.input, start + 2) == lx.cursor
  {
    hide NameEnd, Appropriate;
    var t := lx.temp;
    assert t == cx.input[start..lx.cursor];
    assert t[0] == cx.input[start] && t[1] == cx.input[start + 1];
    assert t[2..] == cx.input[start + 2..lx.cursor];
    forall j | start + 2 <= j < lx.cursor ensures IsAlpha(cx.input[j]) {
      assert cx.input[j] == t[j - start];
    }
    NameEndIs(cx.input, start + 2, lx.cursor);
  }

  lemma EndNameTurn(cx: Context, lx: Lexer, start: nat, text: LexState)
    requires CodePoints(cx) && Mid(cx, lx, start) && EndName(lx.state)
    requires Resting(text) && Stays(lx.state, text)
    ensures Accounts(cx, lx, start, Finish(cx, EndTagName(cx, lx, Current(cx, lx), text)))
  {
    hide NameEnd, TagAt, EmitTemp, Raw, Double, Resting, Speculating, Between;
    var c := Current(cx, lx);
    if IsAlpha(c) { NameGrew(cx, lx, start, lx.state, lx.tagBuffer); }
    else {
      NameHere(cx, lx, start);
      if !(Appropriate(cx, lx.tagBuffer) && EndsName(c)) { NameGaveUp(cx, lx, start, text); }
    }
  }

  lemma NameGaveUp(cx: Context, lx: Lexer, start: nat, text: LexState)
    requires CodePoints(cx) && Mid(cx, lx, start) && EndName(lx.state)
    requires Resting(text) && Stays(lx.state, text) && !TagAt(cx, start)
    ensures Accounts(cx, lx, start, Finish(cx, EmitTemp(cx, Go(lx, text))))
  {
    hide NameEnd, TagAt, Accounts, Finish, EmitTemp, Raw, Double;
    GaveUp(cx, lx, start, Go(lx, text));
  }

  /** Every pass of the loop does its part: it uses up the code point at `start`, finds the end of
      the input or the end tag, or goes on with less left to do. */
  lemma TurnAccounts(cx: Context, lx: Lexer, start: nat)
    requires CodePoints(cx) && Mid(cx, lx, start)
    ensures Accounts(cx, lx, start, Turn(cx, lx))
  {
    hide Finish, Mid, NameEnd, TagAt, Accounts, EmitTemp, CodePoints, EndTagName, EndTagOpen,
      PlainText, DoubleName, DashOr, DblLtState, EscState, EscDashState, EscDashDashState, EscLtState, DblState, DblDashState,
      RawtextLtState, ScriptLtState, EmitCurrent;
    match lx.state
    case Rawtext => PlainTextTurn(cx, lx, start, RawtextLt);
    case Script => PlainTextTurn(cx, lx, start, ScriptLt);
    case RawtextEndTagOpen => EndOpenTurn(cx, lx, start, RawtextEndTagName, Rawtext);
    case ScriptEndTagOpen => EndOpenTurn(cx, lx, start, ScriptEndTagName, Script);
    case EscEndTagOpen => EndOpenTurn(cx, lx, start, EscEndTagName, Esc);
    case RawtextEndTagName => EndNameTurn(cx, lx, start, Rawtext);
    case ScriptEndTagName => EndNameTurn(cx, lx, start, Script);
    case EscEndTagName => EndNameTurn(cx, lx, start, Esc);
    case RawtextLt | ScriptLt | EscLt => LessTurn(cx, lx, start);
    case Esc | EscDash | EscDashDash => EscTurn(cx, lx, start);
    case Dbl | DblDash | DblDashDash => DblTurn(cx, lx, start);
    case EscStart => DashTurn(cx, lx, start, EscStartDash);
    case EscStartDash => DashTurn(cx, lx, start, EscDashDash);
    case DblLt => DblLtTurn(cx, lx, start);
    case DblStart => NameTurn(cx, lx, start, Dbl, Esc);
    case DblEnd => NameTurn(cx, lx, start, Esc, Dbl);
    case _ => DataTurn(cx, lx, start);
  }

  lemma DataTurn(cx: Context, lx: Lexer, start: nat)
    requires CodePoints(cx) && Mid(cx, lx, start) && !InText(lx.state)
    ensures Accounts(cx, lx, start, Turn(cx, lx))
  {
    hide NameEnd, TagAt;
  }
}
