/** The RAWTEXT and script data states of the tokenizer: speculative end tags, rewinding to a mark
    and replaying the temporary buffer one token per call. */
module TextTokenizer {
  import opened Options

  datatype LexState =
    | Rawtext | RawtextLt | RawtextEndTagOpen | RawtextEndTagName
    | Script | ScriptLt | ScriptEndTagOpen | ScriptEndTagName | EscStart | EscStartDash
    | Esc | EscDash | EscDashDash | EscLt | EscEndTagOpen | EscEndTagName
    | DblStart | Dbl | DblDash | DblDashDash | DblLt | DblEnd
    | Data | BeforeAttrName | SelfClosing

  /** What a call of the tokenizer delivers. `LeftText` stands for going on in the attribute
      states of an accepted end tag, which are not modelled. */
  datatype Token = Char(c: int) | Eof | EndTag(tag: int) | LeftText

  /** The decoded input, the tag look-up on lower-case names, and the last start tag. */
  datatype Context = Context(input: seq<int>, tagEnum: seq<int> -> int, lastStartTag: Option<int>)

  datatype Lexer = Lexer(
    state: LexState, reconsume: bool, cursor: nat, mark: nat,
    temp: seq<int>, emit: Option<nat>,
    scriptBuffer: seq<int>, tagBuffer: seq<int>)

  /** `NEXT_CHAR`, `RETURN_SUCCESS` with the token, `RETURN_ERROR`. */
  datatype Result = NextChar | Done(token: Token) | Failed

  datatype Step = Step(lx: Lexer, result: Result)

  const LT: int := 0x3C
  const GT: int := 0x3E
  const SLASH: int := 0x2F
  const BANG: int := 0x21
  const DASH: int := 0x2D
  const REPLACEMENT: int := 0xFFFD
  const SCRIPT_NAME: seq<int> := [0x73, 0x63, 0x72, 0x69, 0x70, 0x74]

  predicate NamesScript(name: seq<int>) { name == SCRIPT_NAME }

  predicate IsAlpha(c: int) { 0x41 <= c <= 0x5A || 0x61 <= c <= 0x7A }

  function EnsureLowercase(c: int): int { if 0x41 <= c <= 0x5A then c + 0x20 else c }

  predicate IsSpace(c: int) { c == 9 || c == 10 || c == 12 || c == 32 }

  predicate EndsName(c: int) { IsSpace(c) || c == SLASH || c == GT }

  // ---------------------------------------------------------------------------------------
  // Steps the states share

  function Current(cx: Context, lx: Lexer): int {
    if lx.cursor < |cx.input| then cx.input[lx.cursor] else -1
  }

  /** `utf8iterator_next`; nothing moves at the end. */
  function Advance(cx: Context, lx: Lexer): Lexer {
    if lx.cursor < |cx.input| then lx.(cursor := lx.cursor + 1) else lx
  }

  /** `emit_char` with `finish_token`. */
  function Emit(cx: Context, lx: Lexer, c: int): Step {
    Step(if lx.reconsume then lx else Advance(cx, lx), Done(if c == -1 then Eof else Char(c)))
  }

  function EmitCurrent(cx: Context, lx: Lexer): Step { Emit(cx, lx, Current(cx, lx)) }

  /** `clear_temporary_buffer`: mark the cursor, empty both buffers. */
  function ClearTemp(lx: Lexer): Lexer { lx.(mark := lx.cursor, temp := [], scriptBuffer := []) }

  function Append(lx: Lexer, c: int): Lexer { lx.(temp := lx.temp + [c]) }

  /** A letter for the script data buffer, in lower case. */
  function AppendScript(lx: Lexer, c: int): Lexer { lx.(scriptBuffer := lx.scriptBuffer + [EnsureLowercase(c)]) }

  function Go(lx: Lexer, state: LexState): Lexer { lx.(state := state) }

  function Reconsume(lx: Lexer): Lexer { lx.(reconsume := true) }

  /** Whether `maybe_emit_from_temporary_buffer` has a character to emit. */
  predicate Flushing(lx: Lexer) { lx.emit.Some? && lx.emit.value < |lx.temp| }

  /** `maybe_emit_from_temporary_buffer`, when it emits. */
  function EmitFromTemp(cx: Context, lx: Lexer): Step
    requires Flushing(lx)
  {
    var k := lx.emit.value;
    var r := Emit(cx, lx.(reconsume := false), lx.temp[k]);
    Step(r.lx.(emit := Some(k + 1), reconsume := lx.reconsume), r.result)
  }

  /** `emit_temporary_buffer`: rewind to the mark and start flushing. */
  function EmitTemp(cx: Context, lx: Lexer): Step {
    var r := lx.(cursor := lx.mark, emit := Some(0));
    if Flushing(r) then EmitFromTemp(cx, r) else Step(r.(emit := None), Failed)
  }

  /** Enter a less-than sign state. */
  function OpenTag(lx: Lexer, state: LexState): Step {
    Step(Append(ClearTemp(Go(lx, state)), LT), NextChar)
  }

  // ---------------------------------------------------------------------------------------
  // The state functions

  /** The plain text states: text, an end tag's start, NUL and the end. */
  function PlainText(cx: Context, lx: Lexer, c: int, lt: LexState): Step {
    if c == LT then OpenTag(lx, lt)
    else if c == 0 then Emit(cx, lx, REPLACEMENT)
    else EmitCurrent(cx, lx)
  }

  function EndTagOpen(cx: Context, lx: Lexer, c: int, name: LexState, text: LexState): Step {
    if IsAlpha(c)
    then Step(Append(Go(lx, name).(tagBuffer := [EnsureLowercase(c)]), c), NextChar)
    else EmitTemp(cx, Go(lx, text))
  }

  /** `is_appropriate_end_tag`. */
  predicate Appropriate(cx: Context, name: seq<int>) {
    cx.lastStartTag.Some? && cx.lastStartTag.value == cx.tagEnum(name)
  }

  function EndTagName(cx: Context, lx: Lexer, c: int, text: LexState): Step {
    if IsAlpha(c)
    then Step(Append(lx.(tagBuffer := lx.tagBuffer + [EnsureLowercase(c)]), c), NextChar)
    else if Appropriate(cx, lx.tagBuffer) && EndsName(c) then
      if c == GT then Step(Advance(cx, Go(lx, Data)), Done(EndTag(cx.tagEnum(lx.tagBuffer))))
      else if c == SLASH then Step(Go(lx, SelfClosing), NextChar)
      else Step(Go(lx, BeforeAttrName), NextChar)
    else EmitTemp(cx, Go(lx, text))
  }

  function RawtextLtState(cx: Context, lx: Lexer, c: int): Step {
    if c == SLASH then Step(Append(Go(lx, RawtextEndTagOpen), c), NextChar)
    else EmitTemp(cx, Reconsume(Go(lx, Rawtext)))
  }

  function ScriptLtState(cx: Context, lx: Lexer, c: int): Step {
    if c == SLASH then Step(Append(Go(lx, ScriptEndTagOpen), c), NextChar)
    else if c == BANG then EmitTemp(cx, Append(Go(lx, EscStart), c))
    else EmitTemp(cx, Reconsume(Go(lx, Script)))
  }

  function DashOr(cx: Context, lx: Lexer, c: int, dash: LexState): Step {
    if c == DASH then EmitCurrent(cx, Go(lx, dash)) else Step(Reconsume(Go(lx, Script)), NextChar)
  }

  function EscState(cx: Context, lx: Lexer, c: int): Step {
    if c == DASH then EmitCurrent(cx, Go(lx, EscDash))
    else if c == LT then OpenTag(lx, EscLt)
    else if c == 0 then Emit(cx, lx, REPLACEMENT)
    else EmitCurrent(cx, lx)
  }

  function EscDashState(cx: Context, lx: Lexer, c: int): Step {
    if c == DASH then EmitCurrent(cx, Go(lx, EscDashDash))
    else if c == LT then OpenTag(lx, EscLt)
    else if c == 0 then Emit(cx, Go(lx, Esc), REPLACEMENT)
    else if c == -1 then Step(Go(lx, Data), NextChar)
    else EmitCurrent(cx, Go(lx, Esc))
  }

  function EscDashDashState(cx: Context, lx: Lexer, c: int): Step {
    if c == DASH then EmitCurrent(cx, lx)
    else if c == LT then OpenTag(lx, EscLt)
    else if c == GT then EmitCurrent(cx, Go(lx, Script))
    else if c == 0 then Emit(cx, Go(lx, Esc), REPLACEMENT)
    else if c == -1 then Step(Go(lx, Data), NextChar)
    else EmitCurrent(cx, Go(lx, Esc))
  }

  function EscLtState(cx: Context, lx: Lexer, c: int): Step {
    if c == SLASH then Step(Append(Go(lx, EscEndTagOpen), c), NextChar)
    else if IsAlpha(c)
    then EmitTemp(cx, AppendScript(Append(Go(lx, DblStart), c), c))
    else EmitTemp(cx, Go(lx, Esc))
  }

  /** The double escape start and end states: collect a name, and decide on its end. */
  function DoubleName(cx: Context, lx: Lexer, c: int, ifScript: LexState, otherwise: LexState): Step {
    if EndsName(c)
    then if NamesScript(lx.scriptBuffer) then EmitCurrent(cx, Go(lx, ifScript)) else EmitCurrent(cx, Go(lx, otherwise))
    else if IsAlpha(c) then EmitCurrent(cx, AppendScript(lx, c))
    else Step(Reconsume(Go(lx, otherwise)), NextChar)
  }

  function DblState(cx: Context, lx: Lexer, c: int): Step {
    if c == DASH then EmitCurrent(cx, Go(lx, DblDash))
    else if c == LT then EmitCurrent(cx, Go(lx, DblLt))
    else if c == 0 then Emit(cx, lx, REPLACEMENT)
    else if c == -1 then Step(Go(lx, Data), NextChar)
    else EmitCurrent(cx, lx)
  }

  function DblDashState(cx: Context, lx: Lexer, c: int): Step {
    if c == DASH then EmitCurrent(cx, Go(lx, DblDashDash))
    else if c == LT then EmitCurrent(cx, Go(lx, DblLt))
    else if c == GT && lx.state == DblDashDash then EmitCurrent(cx, Go(lx, Script))
    else if c == 0 then Emit(cx, Go(lx, Dbl), REPLACEMENT)
    else if c == -1 then Step(Go(lx, Data), NextChar)
    else EmitCurrent(cx, Go(lx, Dbl))
  }

  function DblLtState(cx: Context, lx: Lexer, c: int): Step {
    if c == SLASH then EmitCurrent(cx, Go(lx, DblEnd).(scriptBuffer := []))
    else Step(Reconsume(Go(lx, Dbl)), NextChar)
  }

  predicate InText(state: LexState) { state != Data && state != BeforeAttrName && state != SelfClosing }

  /** The dispatch table. DATA is reached only at the end of the input, where it emits EOF. */
  function Dispatch(cx: Context, lx: Lexer): Step
    requires InText(lx.state) || lx.state == Data
  {
    var c := Current(cx, lx);
    match lx.state
    case Rawtext => PlainText(cx, lx, c, RawtextLt)
    case RawtextLt => RawtextLtState(cx, lx, c)
    case RawtextEndTagOpen => EndTagOpen(cx, lx, c, RawtextEndTagName, Rawtext)
    case RawtextEndTagName => EndTagName(cx, lx, c, Rawtext)
    case Script => PlainText(cx, lx, c, ScriptLt)
    case ScriptLt => ScriptLtState(cx, lx, c)
    case ScriptEndTagOpen => EndTagOpen(cx, lx, c, ScriptEndTagName, Script)
    case ScriptEndTagName => EndTagName(cx, lx, c, Script)
    case EscStart => DashOr(cx, lx, c, EscStartDash)
    case EscStartDash => DashOr(cx, lx, c, EscDashDash)
    case Esc => EscState(cx, lx, c)
    case EscDash => EscDashState(cx, lx, c)
    case EscDashDash => EscDashDashState(cx, lx, c)
    case EscLt => EscLtState(cx, lx, c)
    case EscEndTagOpen => EndTagOpen(cx, lx, c, EscEndTagName, Esc)
    case EscEndTagName => EndTagName(cx, lx, c, Esc)
    case DblStart => DoubleName(cx, lx, c, Dbl, Esc)
    case Dbl => DblState(cx, lx, c)
    case DblDash => DblDashState(cx, lx, c)
    case DblDashDash => DblDashState(cx, lx, c)
    case DblLt => DblLtState(cx, lx, c)
    case DblEnd => DoubleName(cx, lx, c, Esc, Dbl)
    case Data => EmitCurrent(cx, lx)
  }
}
