/** The insertion modes before the body: from INITIAL to AFTER_HEAD, and TEXT. */
module EarlyModes {
  import opened Options
  import opened Sequences

  datatype Tag =
    | Html | Head | Body | Br | Base | Basefont | Bgsound | Menuitem | Link | Meta | Title
    | Noframes | Style | Noscript | Script | Template | Frameset | Other(name: nat)

  datatype Token =
    | Doctype | Comment | Whitespace | Character | Null | Cdata | Eof
    | Start(tag: Tag) | End(tag: Tag)

  datatype Mode =
    | Initial | BeforeHtml | BeforeHead | InHead | InHeadNoscript | AfterHead | TextMode
    | InBody | InFrameset | InTemplate

  datatype Elem = Elem(id: nat, tag: Tag)

  /** The parser fields these handlers use. `roots` and `heads` count creations; `faults` counts
      assertions that failed. */
  datatype Parser = Parser(
    mode: Mode, original: Mode, open: seq<Elem>, nextId: nat,
    root: Option<Elem>, head: Option<Elem>, reprocess: bool,
    roots: nat, heads: nat, faults: nat)

  const START := Parser(Initial, Initial, [], 0, None, None, false, 0, 0, 0)

  // ---------------------------------------------------------------------------------------
  // Steps the handlers share

  function Check(p: Parser, condition: bool): Parser {
    if condition then p else p.(faults := p.faults + 1)
  }

  /** `insert_element` for a new element. */
  function Insert(p: Parser, tag: Tag): Parser {
    p.(open := p.open + [Elem(p.nextId, tag)], nextId := p.nextId + 1)
  }

  /** `pop_current_node`, which asserts that the bottom of the stack is html; popping an empty
      stack yields nothing. */
  function Pop(p: Parser): Parser {
    if p.open == [] then p
    else Check(p, p.open[0].tag == Html).(open := p.open[..|p.open| - 1])
  }

  /** Pop an element whose tag the handler asserts. */
  function PopExpecting(p: Parser, tag: Tag): Parser {
    Pop(Check(p, p.open != [] && p.open[|p.open| - 1].tag == tag))
  }

  function Go(p: Parser, mode: Mode): Parser { p.(mode := mode) }

  function Again(p: Parser): Parser { p.(reprocess := true) }

  /** `run_generic_parsing_algorithm`. */
  function ReadText(p: Parser, tag: Tag): Parser {
    Insert(p, tag).(original := p.mode, mode := TextMode)
  }

  /** `has_open_element(template)`: a scan down to html. */
  predicate TemplateOpen(s: seq<Elem>) {
    s != [] && var t := s[|s| - 1].tag; t == Template || (t != Html && TemplateOpen(s[..|s| - 1]))
  }

  // ---------------------------------------------------------------------------------------
  // The handlers

  function HandleInitial(p: Parser, t: Token): Parser {
    match t
    case Whitespace => p
    case Comment => p
    case Doctype => Go(p, BeforeHtml)
    case _ => Again(Go(p, BeforeHtml))
  }

  function MakeRoot(p: Parser): Parser {
    var q := Insert(p, Html);
    q.(root := Some(Elem(p.nextId, Html)), roots := p.roots + 1, mode := BeforeHead)
  }

  function MakeHead(p: Parser): Parser {
    var q := Insert(p, Head);
    q.(head := Some(Elem(p.nextId, Head)), heads := p.heads + 1, mode := InHead)
  }

  predicate KeepsEndTag(tag: Tag) { tag == Head || tag == Body || tag == Html || tag == Br }

  function HandleBeforeHtml(p: Parser, t: Token): Parser {
    match t
    case Doctype => p
    case Comment => p
    case Whitespace => p
    case Start(Html) => MakeRoot(p)
    case End(tag) => if KeepsEndTag(tag) then Again(MakeRoot(p)) else p
    case _ => Again(MakeRoot(p))
  }

  function HandleBeforeHead(p: Parser, t: Token): Parser {
    match t
    case Doctype => p
    case Comment => p
    case Whitespace => p
    case Start(Head) => MakeHead(p)
    case End(tag) => if KeepsEndTag(tag) then Again(MakeHead(p)) else p
    case _ => Again(MakeHead(p))
  }

  /** The branch of `handle_in_body` for an html start tag: attributes are merged into the root,
      which is asserted to exist. */
  function MergeIntoRoot(p: Parser): Parser {
    if TemplateOpen(p.open) then p else Check(p, p.root.Some?)
  }

  function HandleInHead(p: Parser, t: Token): Parser {
    match t
    case Whitespace => p
    case Doctype => p
    case Comment => p
    case Start(tag) =>
      if tag == Html then MergeIntoRoot(p)
      else if tag == Base || tag == Basefont || tag == Bgsound || tag == Menuitem || tag == Link || tag == Meta
      then Pop(Insert(p, tag))
      else if tag == Title || tag == Noframes || tag == Style || tag == Script then ReadText(p, tag)
      else if tag == Noscript then Go(Insert(p, tag), InHeadNoscript)
      else if tag == Template then Go(Insert(p, tag), InTemplate)
      else if tag == Head then p
      else Again(Go(Pop(p), AfterHead))
    case End(tag) =>
      if tag == Head then Go(PopExpecting(p, Head), AfterHead)
      else if tag == Body || tag == Html || tag == Br then Again(Go(Pop(p), AfterHead))
      else if tag == Template && TemplateOpen(p.open) then Go(p, InTemplate)
      else p
    case _ => Again(Go(Pop(p), AfterHead))
  }

  function HandleInHeadNoscript(p: Parser, t: Token): Parser {
    match t
    case Doctype => p
    case Whitespace => HandleInHead(p, t)
    case Comment => HandleInHead(p, t)
    case Start(tag) =>
      if tag == Html then MergeIntoRoot(p)
      else if tag == Basefont || tag == Bgsound || tag == Link || tag == Meta || tag == Noframes || tag == Style
      then HandleInHead(p, t)
      else if tag == Head || tag == Noscript then p
      else Again(Go(PopExpecting(p, Noscript), InHead))
    case End(tag) =>
      if tag == Noscript then Go(PopExpecting(p, Noscript), InHead)
      else if tag != Br then p
      else Again(Go(PopExpecting(p, Noscript), InHead))
    case _ => Again(Go(PopExpecting(p, Noscript), InHead))
  }

  /** Head content after the head: the head element is pushed for the duration of the call. */
  function HandleBackInHead(p: Parser, t: Token): Parser {
    if p.head.None? then Check(p, false)
    else
      var q := HandleInHead(p.(open := p.open + [p.head.value]), t);
      q.(open := RemoveFirst(q.open, p.head.value))
  }

  function HandleAfterHead(p: Parser, t: Token): Parser {
    match t
    case Whitespace => p
    case Doctype => p
    case Comment => p
    case Start(tag) =>
      if tag == Html then MergeIntoRoot(p)
      else if tag == Body then Go(Insert(p, tag), InBody)
      else if tag == Frameset then Go(Insert(p, tag), InFrameset)
      else if tag == Base || tag == Basefont || tag == Bgsound || tag == Link || tag == Meta || tag == Noframes
              || tag == Script || tag == Style || tag == Template || tag == Title
      then HandleBackInHead(p, t)
      else if tag == Head then p
      else Again(Go(Insert(p, Body), InBody))
    case End(tag) =>
      if tag == Template then HandleInHead(p, t)
      else if tag == Body || tag == Html || tag == Br then Again(Go(Insert(p, Body), InBody))
      else p
    case _ => Again(Go(Insert(p, Body), InBody))
  }

  function HandleText(p: Parser, t: Token): Parser {
    match t
    case Character => p
    case Whitespace => p
    case Eof => Go(Pop(Again(p)), p.original)
    case _ => Go(Pop(p), p.original)
  }

  predicate Early(mode: Mode) { mode != InBody && mode != InFrameset && mode != InTemplate }

  /** The dispatch on the insertion mode. */
  function Handle(p: Parser, t: Token): Parser
    requires Early(p.mode)
  {
    match p.mode
    case Initial => HandleInitial(p, t)
    case BeforeHtml => HandleBeforeHtml(p, t)
    case BeforeHead => HandleBeforeHead(p, t)
    case InHead => HandleInHead(p, t)
    case InHeadNoscript => HandleInHeadNoscript(p, t)
    case AfterHead => HandleAfterHead(p, t)
    case TextMode => HandleText(p, t)
  }

  // ---------------------------------------------------------------------------------------
  // What every step keeps

  /** The stack is exactly what the mode says. */
  ghost predicate StackIs(p: Parser, mode: Mode, s: seq<Elem>) {
    match mode
    case Initial => s == [] && p.root == None && p.head == None
    case BeforeHtml => s == [] && p.root == None && p.head == None
    case BeforeHead => p.root.Some? && s == [p.root.value] && p.head == None
    case InHead => p.root.Some? && p.head.Some? && s == [p.root.value, p.head.value]
    case InHeadNoscript =>
      p.root.Some? && p.head.Some? && |s| == 3 && s[..2] == [p.root.value, p.head.value] && s[2].tag == Noscript
    case AfterHead => p.root.Some? && p.head.Some? && s == [p.root.value]
    case InBody => p.root.Some? && p.head.Some? && |s| == 2 && s[0] == p.root.value && s[1].tag == Body
    case InFrameset => p.root.Some? && p.head.Some? && |s| == 2 && s[0] == p.root.value && s[1].tag == Frameset
    case _ => false
  }

  ghost predicate TextTag(tag: Tag) { tag == Title || tag == Noframes || tag == Style || tag == Script }

  ghost predicate Fits(p: Parser) {
    && (p.mode == TextMode ==>
          && (p.original == InHead || p.original == InHeadNoscript || p.original == AfterHead)
          && |p.open| > 0 && TextTag(p.open[|p.open| - 1].tag)
          && StackIs(p, p.original, p.open[..|p.open| - 1]))
    && (p.mode != TextMode ==> StackIs(p, p.mode, p.open))
    && (forall i :: 0 <= i < |p.open| ==> p.open[i].id < p.nextId)
    && (p.root.Some? ==> p.root.value.tag == Html && p.root.value.id < p.nextId)
    && (p.head.Some? ==> p.root.Some? && p.head.value.tag == Head && p.root.value.id < p.head.value.id < p.nextId)
    && p.roots == (if p.root.Some? then 1 else 0) && p.heads == (if p.head.Some? then 1 else 0)
    && p.faults == 0
  }

  /** Reprocessing always moves to a higher rank. */
  function Rank(mode: Mode): nat {
    match mode
    case Initial => 0
    case BeforeHtml => 1
    case TextMode => 1
    case BeforeHead => 2
    case InHeadNoscript => 2
    case InHead => 3
    case AfterHead => 4
    case _ => 5
  }

  lemma BackInHeadFits(p: Parser, t: Token)
    requires Fits(p) && p.mode == AfterHead && t.Start? && !p.reprocess
    requires var g := t.tag;
             g == Base || g == Basefont || g == Bgsound || g == Link || g == Meta || TextTag(g)
    ensures var q := HandleBackInHead(p, t); Fits(q) && !q.reprocess && q.root == p.root && q.head == p.head
  {
    hide HandleInHead, RemoveFirst, TemplateOpen;
    var root, head := p.root.value, p.head.value;
    var pushed := p.(open := p.open + [head]);
    assert pushed.open == [root, head] + [];
    BorrowedFromHead(pushed, t);
    var e := Elem(p.nextId, t.tag);
    WithoutSecond(root, head, []);
    WithoutSecond(root, head, [e]);
    assert pushed.open + [e] == [root, head] + [e];
    assert ([root] + [e])[..1] == [root];
  }

  lemma WithoutSecond(a: Elem, b: Elem, rest: seq<Elem>)
    requires a != b
    ensures RemoveFirst([a, b] + rest, b) == [a] + rest
  {
    var s := [a, b] + rest;
    assert s[0] == a && s[1] == b && s[..1] == [a] && s[2..] == rest;
    FirstIndex(s, b, 1);
  }

  /** A void element comes and goes: only the identifier counter moves. */
  lemma VoidElement(p: Parser, tag: Tag)
    requires p.open != [] && p.open[0].tag == Html
    ensures Pop(Insert(p, tag)) == p.(nextId := p.nextId + 1)
  {
    assert (p.open + [Elem(p.nextId, tag)])[..|p.open|] == p.open;
  }

  lemma NextIdFits(p: Parser)
    requires Fits(p)
    ensures Fits(p.(nextId := p.nextId + 1))
  {
  }

  lemma ReadTextFits(p: Parser, tag: Tag)
    requires Fits(p) && (p.mode == InHead || p.mode == InHeadNoscript || p.mode == AfterHead) && TextTag(tag)
    ensures var q := ReadText(p, tag);
            Fits(q) && q.root == p.root && q.head == p.head && q.reprocess == p.reprocess
  {
    var q := ReadText(p, tag);
    assert q.open[..|q.open| - 1] == p.open;
  }

  lemma LeaveHeadFits(p: Parser)
    requires Fits(p) && p.mode == InHead
    ensures Pop(p) == PopExpecting(p, Head) == p.(open := [p.root.value]) && Fits(Go(Pop(p), AfterHead))
  {
    assert p.open[..1] == [p.root.value];
  }

  lemma LeaveNoscriptFits(p: Parser)
    requires Fits(p) && p.mode == InHeadNoscript
    ensures PopExpecting(p, Noscript) == p.(open := [p.root.value, p.head.value])
    ensures Fits(Go(PopExpecting(p, Noscript), InHead))
  {
    assert p.open[0] == p.open[..2][0];
  }

  lemma NoTemplate(p: Parser)
    requires Fits(p) && (p.mode == InHead || p.mode == InHeadNoscript || p.mode == AfterHead)
    ensures p.open != [] && p.open[0].tag == Html && !TemplateOpen(p.open)
  {
    var s := p.open;
    if |s| > 1 {
      assert s[..|s| - 1][0] == s[0];
      assert p.mode == InHeadNoscript ==> s[..2] == [p.root.value, p.head.value] && s[..2][..1] == [p.root.value];
      assert p.mode == InHead ==> s[..1] == [p.root.value];
      assert TemplateOpen([p.root.value]) == false;
    }
  }

  /** What one handled token may do: root and head stay once made, and a reprocess goes up. */
  ghost predicate Advances(p: Parser, q: Parser) {
    && Fits(q) && (q.reprocess ==> Rank(q.mode) > Rank(p.mode)) && Keeps(p, q)
  }

  lemma InHeadFits(p: Parser, t: Token)
    requires Fits(p) && p.mode == InHead && t != Start(Template) && !p.reprocess
    ensures Advances(p, HandleInHead(p, t))
  {
    hide Fits, TemplateOpen, Insert, Pop, PopExpecting, HandleInHead, Advances;
    if t.Start? { InHeadStartFits(p, t.tag); } else { InHeadOtherFits(p, t); }
  }

  lemma InHeadOtherFits(p: Parser, t: Token)
    requires Fits(p) && p.mode == InHead && !t.Start? && !p.reprocess
    ensures Advances(p, HandleInHead(p, t))
  {
    hide Fits, TemplateOpen, Insert, Pop, PopExpecting;
    NoTemplate(p);
    LeaveHeadFits(p);
    AgainFits(Go(Pop(p), AfterHead));
  }

  lemma InHeadStartFits(p: Parser, tag: Tag)
    requires Fits(p) && p.mode == InHead && tag != Template && !p.reprocess
    ensures Advances(p, HandleInHead(p, Start(tag)))
  {
    hide Fits, TemplateOpen, Insert, Pop, PopExpecting, ReadText, Advances, Again, Go;
    NoTemplate(p);
    HeadMade(p);
    VoidAdvances(p, tag);
    HeadAdvances(p, tag);
  }

  /** The outcomes of the in-head rules. */
  lemma HeadAdvances(p: Parser, tag: Tag)
    requires Fits(p) && p.mode == InHead && !p.reprocess
    ensures Advances(p, p) && Advances(p, Again(Go(Pop(p), AfterHead)))
    ensures Advances(p, Go(Insert(p, Noscript), InHeadNoscript))
    ensures TextTag(tag) ==> Advances(p, ReadText(p, tag))
  {
    hide Fits, TemplateOpen, Insert, Pop, PopExpecting, ReadText;
    if TextTag(tag) { ReadTextFits(p, tag); }
    EnterNoscriptFits(p);
    LeaveHeadFits(p);
    AgainFits(Go(Pop(p), AfterHead));
  }

  lemma VoidAdvances(p: Parser, tag: Tag)
    requires Fits(p) && p.mode == InHead && !p.reprocess
    ensures Advances(p, Pop(Insert(p, tag)))
  {
    hide Fits, TemplateOpen, Insert, Pop;
    NoTemplate(p);
    VoidElement(p, tag);
    NextIdFits(p);
  }

  lemma HeadMade(p: Parser)
    requires Fits(p) && p.mode == InHead
    ensures p.root.Some? && p.head.Some?
  {
  }

  lemma EnterNoscriptFits(p: Parser)
    requires Fits(p) && p.mode == InHead
    ensures var q := Go(Insert(p, Noscript), InHeadNoscript);
            Fits(q) && q.root == p.root && q.head == p.head && q.reprocess == p.reprocess
  {
    var q := Go(Insert(p, Noscript), InHeadNoscript);
    assert q.open[..2] == p.open;
  }

  lemma NoscriptFits(p: Parser, t: Token)
    requires Fits(p) && p.mode == InHeadNoscript && t != Start(Template) && !p.reprocess
    ensures Advances(p, HandleInHeadNoscript(p, t))
  {
    hide HandleInHead, Fits, Advances, PopExpecting, ReadText, Go, Again, TemplateOpen;
    NoTemplate(p);
    BorrowedFromHead(p, t);
    FitsRoot(p);
    NoscriptAdvances(p, t);
  }

  /** The outcomes of the noscript rules. */
  lemma NoscriptAdvances(p: Parser, t: Token)
    requires Fits(p) && p.mode == InHeadNoscript && !p.reprocess
    ensures Advances(p, p) && Advances(p, p.(nextId := p.nextId + 1))
    ensures Advances(p, Go(PopExpecting(p, Noscript), InHead)) && Advances(p, Again(Go(PopExpecting(p, Noscript), InHead)))
    ensures t.Start? && TextTag(t.tag) ==> Advances(p, ReadText(p, t.tag))
  {
    hide Fits, PopExpecting, ReadText;
    LeaveNoscriptFits(p);
    NextIdFits(p);
    AgainFits(Go(PopExpecting(p, Noscript), InHead));
    if t.Start? && TextTag(t.tag) { ReadTextFits(p, t.tag); }
  }

  lemma AgainFits(p: Parser)
    requires Fits(p)
    ensures Fits(Again(p))
  {
  }

  lemma FitsRoot(p: Parser)
    requires Fits(p) && p.mode == InHeadNoscript
    ensures p.root.Some? && p.faults == 0
  {
  }

  /** What the in-head rules do for the tokens that noscript passes on to them. */
  lemma BorrowedFromHead(p: Parser, t: Token)
    requires p.open != [] && p.open[0].tag == Html
    ensures t == Whitespace || t == Comment ==> HandleInHead(p, t) == p
    ensures t.Start? && (t.tag == Base || t.tag == Basefont || t.tag == Bgsound || t.tag == Link || t.tag == Meta) ==>
            HandleInHead(p, t) == p.(nextId := p.nextId + 1)
    ensures t.Start? && TextTag(t.tag) ==> HandleInHead(p, t) == ReadText(p, t.tag)
  {
    if t.Start? { VoidElement(p, t.tag); }
  }

  lemma AfterHeadFits(p: Parser, t: Token)
    requires Fits(p) && p.mode == AfterHead && t != Start(Template) && !p.reprocess
    ensures Advances(p, HandleAfterHead(p, t))
  {
    hide HandleBackInHead, HandleInHead, Fits, Advances, Insert, Go, Again, TemplateOpen;
    NoTemplate(p);
    AfterHeadAdvances(p);
    if t.Start? && (t.tag == Base || t.tag == Basefont || t.tag == Bgsound || t.tag == Link || t.tag == Meta || TextTag(t.tag)) {
      BackInHeadAdvances(p, t);
    } else if t == End(Template) {
      IgnoresTemplateEnd(p);
    }
  }

  /** The outcomes of the after-head rules. */
  lemma AfterHeadAdvances(p: Parser)
    requires Fits(p) && p.mode == AfterHead && !p.reprocess
    ensures p.root.Some? && Advances(p, p)
    ensures Advances(p, Go(Insert(p, Body), InBody)) && Advances(p, Again(Go(Insert(p, Body), InBody)))
    ensures Advances(p, Go(Insert(p, Frameset), InFrameset))
  {
  }

  lemma BackInHeadAdvances(p: Parser, t: Token)
    requires Fits(p) && p.mode == AfterHead && t.Start? && !p.reprocess
    requires var g := t.tag;
             g == Base || g == Basefont || g == Bgsound || g == Link || g == Meta || TextTag(g)
    ensures Advances(p, HandleBackInHead(p, t))
  {
    hide HandleBackInHead, Fits;
    BackInHeadFits(p, t);
  }

  lemma IgnoresTemplateEnd(p: Parser)
    requires !TemplateOpen(p.open)
    ensures HandleInHead(p, End(Template)) == p
  {
  }

  lemma TextFits(p: Parser, t: Token)
    requires Fits(p) && p.mode == TextMode && !p.reprocess
    ensures Advances(p, HandleText(p, t))
  {
    hide Fits, Pop;
    LeaveTextFits(p);
    AgainFits(Go(Pop(p), p.original));
  }

  lemma LeaveTextFits(p: Parser)
    requires Fits(p) && p.mode == TextMode
    ensures var q := Pop(p);
            && Fits(Go(q, p.original)) && q == p.(open := q.open) && Pop(Again(p)) == Again(q)
            && Rank(p.original) > Rank(TextMode)
  {
    var rest := p.open[..|p.open| - 1];
    assert p.open[0] == rest[0];
    assert p.original == InHeadNoscript ==> rest[0] == rest[..2][0];
  }

  lemma FirstModesFit(p: Parser, t: Token)
    requires Fits(p) && (p.mode == Initial || p.mode == BeforeHtml || p.mode == BeforeHead) && !p.reprocess
    ensures Advances(p, Handle(p, t))
  {
    hide Advances, HandleInitial, HandleBeforeHtml, HandleBeforeHead, Fits;
    match p.mode
    case Initial => InitialFits(p, t);
    case BeforeHtml => BeforeHtmlFits(p, t);
    case _ => BeforeHeadFits(p, t);
  }

  lemma InitialFits(p: Parser, t: Token)
    requires Fits(p) && p.mode == Initial && !p.reprocess
    ensures Advances(p, HandleInitial(p, t))
  {
  }

  lemma BeforeHtmlFits(p: Parser, t: Token)
    requires Fits(p) && p.mode == BeforeHtml && !p.reprocess
    ensures Advances(p, HandleBeforeHtml(p, t))
  {
  }

  lemma BeforeHeadFits(p: Parser, t: Token)
    requires Fits(p) && p.mode == BeforeHead && !p.reprocess
    ensures Advances(p, HandleBeforeHead(p, t))
  {
    assert p.open + [Elem(p.nextId, Head)] == [p.root.value, Elem(p.nextId, Head)];
  }

  /** Every handler keeps the stack each mode fixes, creates root and head at most once, fails no
      assertion, and asks for a reprocess only towards a higher rank. */
  lemma StepFits(p: Parser, t: Token)
    requires Fits(p) && Early(p.mode) && t != Start(Template) && !p.reprocess
    ensures Advances(p, Handle(p, t))
  {
    hide Fits, Advances, HandleInHead, HandleInHeadNoscript, HandleAfterHead, HandleText;
    match p.mode
    case InHead => InHeadFits(p, t);
    case InHeadNoscript => NoscriptFits(p, t);
    case AfterHead => AfterHeadFits(p, t);
    case TextMode => TextFits(p, t);
    case _ => FirstModesFit(p, t);
  }

  // ---------------------------------------------------------------------------------------
  // What becomes of a token, by its class and the mode it meets

  /** Elements that belong in the head, there and behind it. */
  predicate HeadContent(tag: Tag) {
    tag == Base || tag == Basefont || tag == Bgsound || tag == Link || tag == Meta
    || tag == Title || tag == Noframes || tag == Style || tag == Script
  }

  /** The token is not used up before the body: it ends up there, to be processed again. */
  predicate GoesToBody(mode: Mode, t: Token) {
    match t
    case Eof => true
    case Doctype => false
    case Comment => false
    case Whitespace => false
    case Start(tag) =>
      && mode != TextMode && !HeadContent(tag) && tag != Html && tag != Head && tag != Body && tag != Frameset
      && (tag == Menuitem || tag == Noscript ==> mode == AfterHead)
    case End(tag) => mode != TextMode && (tag == Br || ((tag == Body || tag == Html) && mode != InHeadNoscript))
    case _ => mode != TextMode
  }

  predicate BeforeTheHead(mode: Mode) { mode == Initial || mode == BeforeHtml || mode == BeforeHead }

  /** The mode the token leads to. */
  function ModeAfter(mode: Mode, original: Mode, t: Token): Mode {
    if GoesToBody(mode, t) then InBody
    else if mode == TextMode then if t == Character || t == Whitespace then TextMode else original
    else
      match t
      case Doctype => if mode == Initial then BeforeHtml else mode
      case Start(tag) => StartMode(mode, tag)
      case End(tag) =>
        if tag == Head && (BeforeTheHead(mode) || mode == InHead) then AfterHead
        else if tag == Noscript && mode == InHeadNoscript then InHead
        else if mode == Initial then BeforeHtml
        else mode
      case _ => mode
  }

  function StartMode(mode: Mode, tag: Tag): Mode {
    match tag
    case Body => InBody
    case Frameset => InFrameset
    case Html => if mode == Initial || mode == BeforeHtml then BeforeHead else if mode == BeforeHead then InHead else mode
    case Head => if BeforeTheHead(mode) then InHead else mode
    case Title => TextMode
    case Noframes => TextMode
    case Style => TextMode
    case Script => TextMode
    case Noscript => InHeadNoscript
    case Base => if mode == AfterHead then AfterHead else InHead
    case Menuitem => InHead
    case _ => if BeforeTheHead(mode) then InHead else mode
  }

  /** The mode that text mode returns to. */
  function ReturnsTo(mode: Mode, original: Mode, t: Token): Mode {
    if mode == TextMode then original
    else if mode == AfterHead then AfterHead
    else if mode == InHeadNoscript && (t == Start(Noframes) || t == Start(Style)) then InHeadNoscript
    else InHead
  }

  /** What one call does to the fate of its token. */
  ghost predicate Means(p: Parser, t: Token, q: Parser) {
    if !q.reprocess then
      && !GoesToBody(p.mode, t) && q.mode == ModeAfter(p.mode, p.original, t)
      && (q.mode == TextMode ==> q.original == ReturnsTo(p.mode, p.original, t))
    else if Early(q.mode) then
      && GoesToBody(q.mode, t) == GoesToBody(p.mode, t) && ModeAfter(q.mode, q.original, t) == ModeAfter(p.mode, p.original, t)
      && (ModeAfter(p.mode, p.original, t) == TextMode ==> ReturnsTo(q.mode, q.original, t) == ReturnsTo(p.mode, p.original, t))
    else GoesToBody(p.mode, t) && q.mode == InBody
  }

  lemma FirstModesMean(p: Parser, t: Token)
    requires (p.mode == Initial || p.mode == BeforeHtml || p.mode == BeforeHead) && !p.reprocess && t != Start(Template)
    ensures Means(p, t, Handle(p, t))
  {
    hide Means, HandleInitial, HandleBeforeHtml, HandleBeforeHead;
    match p.mode
    case Initial => InitialMeans(p, t);
    case BeforeHtml => BeforeHtmlMeans(p, t);
    case _ => BeforeHeadMeans(p, t);
  }

  lemma InitialMeans(p: Parser, t: Token)
    requires p.mode == Initial && !p.reprocess && t != Start(Template)
    ensures Means(p, t, HandleInitial(p, t))
  {
  }

  lemma BeforeHtmlMeans(p: Parser, t: Token)
    requires p.mode == BeforeHtml && !p.reprocess && t != Start(Template)
    ensures Means(p, t, HandleBeforeHtml(p, t))
  {
  }

  lemma BeforeHeadMeans(p: Parser, t: Token)
    requires p.mode == BeforeHead && !p.reprocess && t != Start(Template)
    ensures Means(p, t, HandleBeforeHead(p, t))
  {
  }

  lemma InHeadMeans(p: Parser, t: Token)
    requires Fits(p) && p.mode == InHead && !p.reprocess && t != Start(Template)
    ensures Means(p, t, HandleInHead(p, t))
  {
    hide Fits, TemplateOpen, Means, HandleInHead;
    NoTemplate(p);
    if t.Start? { InHeadStartMeans(p, t.tag); } else { InHeadOtherMeans(p, t); }
  }

  lemma InHeadStartMeans(p: Parser, tag: Tag)
    requires p.mode == InHead && !p.reprocess && tag != Template
    ensures Means(p, Start(tag), HandleInHead(p, Start(tag)))
  {
    hide GoesToBody, ModeAfter, ReturnsTo;
    FateInHead(tag, p.original);
  }

  /** Start tags that the handler in the head does not hand on. */
  predicate Kept(tag: Tag) { HeadContent(tag) || tag == Html || tag == Head || tag == Menuitem || tag == Noscript }

  lemma FateInHead(tag: Tag, original: Mode)
    requires tag != Template
    ensures Kept(tag) ==>
      && !GoesToBody(InHead, Start(tag)) && ReturnsTo(InHead, original, Start(tag)) == InHead
      && ModeAfter(InHead, original, Start(tag))
         == (if TextTag(tag) then TextMode else if tag == Noscript then InHeadNoscript else InHead)
    ensures !Kept(tag) ==>
      && GoesToBody(AfterHead, Start(tag)) == GoesToBody(InHead, Start(tag))
      && ModeAfter(AfterHead, original, Start(tag)) == ModeAfter(InHead, original, Start(tag))
      && ModeAfter(AfterHead, original, Start(tag)) != TextMode
  {}

  lemma InHeadOtherMeans(p: Parser, t: Token)
    requires p.mode == InHead && !p.reprocess && !t.Start? && !TemplateOpen(p.open)
    ensures Means(p, t, HandleInHead(p, t))
  {
    hide TemplateOpen;
  }

  lemma NoscriptMeans(p: Parser, t: Token)
    requires Fits(p) && p.mode == InHeadNoscript && !p.reprocess && t != Start(Template)
    ensures Means(p, t, HandleInHeadNoscript(p, t))
  {
    hide Fits, TemplateOpen, HandleInHead, Means, HandleInHeadNoscript;
    NoTemplate(p);
    if t.Start? { NoscriptStartMeans(p, t.tag); } else { NoscriptOtherMeans(p, t); }
  }

  /** Start tags that the handler leaves to the one for the head. */
  predicate Borrowed(tag: Tag) {
    tag == Basefont || tag == Bgsound || tag == Link || tag == Meta || tag == Noframes || tag == Style
  }

  lemma NoscriptStartMeans(p: Parser, tag: Tag)
    requires p.mode == InHeadNoscript && !p.reprocess && tag != Template && p.open != [] && p.open[0].tag == Html
    ensures Means(p, Start(tag), HandleInHeadNoscript(p, Start(tag)))
  {
    hide HandleInHeadNoscript, Means;
    if Borrowed(tag) { NoscriptBorrows(p, tag); } else { NoscriptKeeps(p, tag); }
  }

  lemma NoscriptBorrows(p: Parser, tag: Tag)
    requires p.mode == InHeadNoscript && !p.reprocess && Borrowed(tag) && p.open != [] && p.open[0].tag == Html
    ensures Means(p, Start(tag), HandleInHeadNoscript(p, Start(tag)))
  {
    hide TemplateOpen, HandleInHead;
    BorrowedFromHead(p, Start(tag));
  }

  lemma NoscriptKeeps(p: Parser, tag: Tag)
    requires p.mode == InHeadNoscript && !p.reprocess && !Borrowed(tag) && tag != Template
    ensures Means(p, Start(tag), HandleInHeadNoscript(p, Start(tag)))
  {
    hide GoesToBody, ModeAfter, ReturnsTo, HandleInHead;
    SameFate(tag, p.original);
  }

  /** Outside the noscript element, a tag that its handler does not keep fares as it does inside the head. */
  lemma SameFate(tag: Tag, original: Mode)
    requires !Borrowed(tag) && tag != Template
    ensures tag == Html || tag == Head || tag == Noscript ==>
      !GoesToBody(InHeadNoscript, Start(tag)) && ModeAfter(InHeadNoscript, original, Start(tag)) == InHeadNoscript
    ensures tag != Html && tag != Head && tag != Noscript ==>
      && GoesToBody(InHead, Start(tag)) == GoesToBody(InHeadNoscript, Start(tag))
      && ModeAfter(InHead, original, Start(tag)) == ModeAfter(InHeadNoscript, original, Start(tag))
      && ReturnsTo(InHead, original, Start(tag)) == ReturnsTo(InHeadNoscript, original, Start(tag))
  {}

  lemma NoscriptOtherMeans(p: Parser, t: Token)
    requires p.mode == InHeadNoscript && !p.reprocess && !t.Start? && p.open != [] && p.open[0].tag == Html
    ensures Means(p, t, HandleInHeadNoscript(p, t))
  {
    hide TemplateOpen, HandleInHead;
    BorrowedFromHead(p, t);
  }

  lemma AfterHeadMeans(p: Parser, t: Token)
    requires Fits(p) && p.mode == AfterHead && !p.reprocess && t != Start(Template)
    ensures Means(p, t, HandleAfterHead(p, t))
  {
    hide Fits, TemplateOpen, HandleInHead, HandleBackInHead;
    NoTemplate(p);
    IgnoresTemplateEnd(p);
    if t.Start? && HeadContent(t.tag) { BackInHeadMeans(p, t); }
  }

  lemma BackInHeadMeans(p: Parser, t: Token)
    requires Fits(p) && p.mode == AfterHead && !p.reprocess && t.Start? && HeadContent(t.tag)
    ensures Means(p, t, HandleBackInHead(p, t))
  {
    hide HandleInHead, RemoveFirst;
    BorrowedFromHead(p.(open := p.open + [p.head.value]), t);
  }

  lemma TextMeans(p: Parser, t: Token)
    requires Fits(p) && p.mode == TextMode && !p.reprocess
    ensures Means(p, t, HandleText(p, t))
  {
  }

  lemma StepMeans(p: Parser, t: Token)
    requires Fits(p) && Early(p.mode) && t != Start(Template) && !p.reprocess
    ensures Means(p, t, Handle(p, t))
  {
    hide Fits, Means, HandleInHead, HandleInHeadNoscript, HandleAfterHead, HandleText;
    match p.mode
    case InHead => InHeadMeans(p, t);
    case InHeadNoscript => NoscriptMeans(p, t);
    case AfterHead => AfterHeadMeans(p, t);
    case TextMode => TextMeans(p, t);
    case _ => FirstModesMean(p, t);
  }

  // ---------------------------------------------------------------------------------------
  // Runs

  /** `n` handler calls for one token, each but the first after a reprocess request. */
  function HandleTimes(p: Parser, t: Token, n: nat): Parser {
    if n == 0 then p
    else
      var q := HandleTimes(p, t, n - 1).(reprocess := false);
      if Early(q.mode) then Handle(q, t) else q
  }

  /** What handling one token comes to: `n` calls, each but the last asking for the next, and the last
      asking only on leaving these modes. */
  ghost predicate Handles(p: Parser, t: Token, n: nat, q: Parser) {
    && 1 <= n && q == HandleTimes(p, t, n) && (Early(q.mode) ==> !q.reprocess)
    && forall k :: 1 <= k < n ==> Early(HandleTimes(p, t, k).mode) && HandleTimes(p, t, k).reprocess
  }

  /** The main loop for one token: handle it, and again while a handler asks for it. It makes at most
      `5 - Rank(p.mode)` calls, and every request raises the rank, so a token is reprocessed at most
      five times. Whether the token is used up before the body, and the mode it leads to, are what its class
      and the mode it meets say. */
  method ProcessToken(p: Parser, t: Token) returns (q: Parser, calls: nat)
    requires Fits(p) && Early(p.mode) && t != Start(Template) && !p.reprocess
    ensures Handles(p, t, calls, q) && Fits(q)
    ensures calls <= 5 - Rank(p.mode) && (q.reprocess ==> calls <= Rank(q.mode) - Rank(p.mode))
    ensures Keeps(p, q)
    ensures q.reprocess == GoesToBody(p.mode, t) && q.mode == ModeAfter(p.mode, p.original, t)
    ensures q.mode == TextMode ==> q.original == ReturnsTo(p.mode, p.original, t)
    ensures t == Eof ==> q.mode == InBody
  {
    hide Fits, Handle, HandleTimes, GoesToBody, ModeAfter, ReturnsTo;
    StepFits(p, t);
    StepMeans(p, t);
    q := Handle(p, t);
    calls := 1;
    HandleOnce(p, t);
    EofGoesOn(p, t);
    RankBound(p.mode);
    RankBound(q.mode);
    while q.reprocess && Early(q.mode)
      invariant Fits(q) && q == HandleTimes(p, t, calls) && Rank(q.mode) <= 5
      invariant 1 <= calls && (q.reprocess ==> calls + Rank(p.mode) <= Rank(q.mode)) && calls + Rank(p.mode) <= 5
      invariant forall k :: 1 <= k < calls ==> Early(HandleTimes(p, t, k).mode) && HandleTimes(p, t, k).reprocess
      invariant Keeps(p, q) && Means(p, t, q)
      invariant t == Eof ==> q.reprocess && q.mode != InFrameset
      decreases if q.reprocess then 6 - Rank(q.mode) else 0
    {
      var r := q.(reprocess := false);
      ReprocessFits(q);
      StepFits(r, t);
      StepMeans(r, t);
      RankBound(r.mode);
      EofGoesOn(r, t);
      q := Handle(r, t);
      HandleOnceMore(p, t, calls);
      calls := calls + 1;
      RankBound(q.mode);
    }
    if !Early(q.mode) { LeftTo(q); }
    BodyMode(p.mode, p.original, t);
  }

  lemma BodyMode(mode: Mode, original: Mode, t: Token)
    ensures GoesToBody(mode, t) ==> ModeAfter(mode, original, t) == InBody
  {}

  /** The end of the input is never swallowed before the body. */
  lemma EofGoesOn(p: Parser, t: Token)
    requires Early(p.mode) && Fits(p)
    ensures t == Eof ==> Handle(p, t).reprocess && Handle(p, t).mode != InFrameset
  {
    hide TemplateOpen, RemoveFirst;
  }

  lemma LeftTo(p: Parser)
    requires Fits(p) && !Early(p.mode)
    ensures p.mode == InBody || p.mode == InFrameset
  {
  }

  lemma HandleOnce(p: Parser, t: Token)
    requires Early(p.mode) && !p.reprocess
    ensures HandleTimes(p, t, 1) == Handle(p, t)
  {
    assert HandleTimes(p, t, 0) == p && p.(reprocess := false) == p;
  }

  lemma HandleOnceMore(p: Parser, t: Token, n: nat)
    requires Early(HandleTimes(p, t, n).mode)
    ensures HandleTimes(p, t, n + 1) == Handle(HandleTimes(p, t, n).(reprocess := false), t)
  {
  }

  lemma RankBound(mode: Mode)
    ensures Rank(mode) <= 5 && (Early(mode) <==> Rank(mode) < 5)
  {
  }

  lemma ReprocessFits(p: Parser)
    requires Fits(p)
    ensures Fits(p.(reprocess := false))
  {
  }

  /** A run: from INITIAL, one state per token, each the outcome of handling its token. */
  ghost predicate IsRun(trace: seq<Parser>, tokens: seq<Token>, used: nat) {
    && used <= |tokens| && |trace| == used + 1 && trace[0] == START
    && forall i {:trigger trace[i + 1]} :: 0 <= i < used ==> Takes(trace[i], tokens[i], trace[i + 1])
  }

  /** From `p` to `q` by one token, in a bounded number of calls. */
  ghost predicate Takes(p: Parser, t: Token, q: Parser) {
    Early(p.mode) && exists n: nat :: n <= 5 - Rank(p.mode) && Handles(p, t, n, q)
  }

  lemma Taken(p: Parser, t: Token, n: nat, q: Parser)
    requires Early(p.mode) && n <= 5 - Rank(p.mode) && Handles(p, t, n, q)
    ensures Takes(p, t, q) && (Early(q.mode) ==> !q.reprocess)
  {
    hide HandleTimes;
  }

  /** Any token stream without template start tags, from INITIAL until the body or frameset mode or
      the end of the stream. In every state of the run the stack fits the mode, root and head are made
      at most once and stay, and no assertion has failed. The run ends early only in the body or
      frameset mode, with one root, one head and the stack html and body, or html and frameset; an EOF
      token always gets it there. */
  method Run(tokens: seq<Token>) returns (p: Parser, used: nat, ghost trace: seq<Parser>)
    requires forall i :: 0 <= i < |tokens| ==> tokens[i] != Start(Template)
    ensures IsRun(trace, tokens, used) && p == trace[used]
    ensures forall i :: 0 <= i <= used ==> Fits(trace[i])
    ensures forall i, j :: 0 <= i <= j <= used ==> Keeps(trace[i], trace[j])
    ensures Early(p.mode) ==> used == |tokens| && Eof !in tokens && !p.reprocess
    ensures !Early(p.mode) ==> Settled(p)
  {
    hide Fits, Handles, HandleTimes, Takes;
    p, used := START, 0;
    trace := [START];
    StartFits();
    while used < |tokens| && Early(p.mode)
      invariant IsRun(trace, tokens, used) && p == trace[used]
      invariant Early(p.mode) ==> !p.reprocess && Eof !in tokens[..used]
      invariant forall i :: 0 <= i <= used ==> Fits(trace[i])
      invariant forall i, j :: 0 <= i <= j <= used ==> Keeps(trace[i], trace[j])
    {
      var next, calls := ProcessToken(p, tokens[used]);
      Taken(p, tokens[used], calls, next);
      assert tokens[..used + 1] == tokens[..used] + [tokens[used]];
      trace := trace + [next];
      p := next;
      used := used + 1;
    }
    assert tokens[..|tokens|] == tokens;
    if !Early(p.mode) { SettledThere(p); }
  }

  /** Root and head, once made, stay. */
  ghost predicate Keeps(p: Parser, q: Parser) {
    (p.root.Some? ==> q.root == p.root) && (p.head.Some? ==> q.head == p.head)
  }

  /** Where these modes lead. */
  ghost predicate Settled(p: Parser) {
    && (p.mode == InBody || p.mode == InFrameset) && p.roots == 1 && p.heads == 1 && p.faults == 0
    && p.root.Some? && p.head.Some? && |p.open| == 2 && p.open[0] == p.root.value
    && p.open[1].tag == (if p.mode == InBody then Body else Frameset)
  }

  lemma SettledThere(p: Parser)
    requires Fits(p) && !Early(p.mode)
    ensures Settled(p)
  {
  }

  lemma StartFits()
    ensures Fits(START)
  {
  }
}
