/**
 The streaming scan for the return element of a SOAP response, and the tree
 query that it computes.
 */
module Soap {
  import opened Common

  datatype Token = Start(name: string) | End(name: string) | Chars(text: string)

  function LowerChar(c: char): char {
    if 'A' <= c <= 'Z' then (c as int + 32) as char else c
  }

  function Lower(s: string): (r: string)
    ensures |r| == |s|
  {
    if s == "" then "" else [LowerChar(s[0])] + Lower(s[1..])
  }

  predicate IsBody(name: string) {
    Lower(name) == "body"
  }

  predicate IsReturn(name: string) {
    Lower(name) == "return"
  }

  lemma LowerAt(s: string, i: nat)
    requires i < |s|
    ensures Lower(s)[i] == LowerChar(s[i])
  {
    if i > 0 {
      LowerAt(s[1..], i - 1);
    }
  }

  /** The two names, letter by letter, in either case. */
  lemma NamesByLetter(name: string)
    ensures IsBody(name)
            <==> && |name| == 4 && name[0] in {'b', 'B'} && name[1] in {'o', 'O'}
                 && name[2] in {'d', 'D'} && name[3] in {'y', 'Y'}
    ensures IsReturn(name)
            <==> && |name| == 6 && name[0] in {'r', 'R'} && name[1] in {'e', 'E'} && name[2] in {'t', 'T'}
                 && name[3] in {'u', 'U'} && name[4] in {'r', 'R'} && name[5] in {'n', 'N'}
  {
    forall i | 0 <= i < |name| ensures Lower(name)[i] == LowerChar(name[i]) {
      LowerAt(name, i);
    }
    if |name| == 4 {
      Letters(Lower(name), "body");
    } else if |name| == 6 {
      Letters(Lower(name), "return");
    }
  }

  lemma Letters(s: string, t: string)
    requires |s| == |t|
    ensures s == t <==> forall i :: 0 <= i < |s| ==> s[i] == t[i]
  {
  }

  // ---------- The scan ----------

  function Advance(k: Option<nat>, steps: nat): Option<nat> {
    match k
    case None => None
    case Some(n) => Some(n + steps)
  }

  /** The index of the end tag that closes `level` further open elements; none if the stream breaks off. */
  function Close(ts: seq<Token>, level: nat): (k: Option<nat>)
    ensures k.Some? ==> k.value < |ts|
  {
    if ts == [] then None
    else match ts[0]
      case Start(_) => Advance(Close(ts[1..], level + 1), 1)
      case End(_) => if level == 0 then Some(0) else Advance(Close(ts[1..], level - 1), 1)
      case Chars(_) => Advance(Close(ts[1..], level), 1)
  }

  /** Where the scan of the remaining tokens decodes an element: the tokens from its start tag on. */
  function Place(ts: seq<Token>, depth: nat, inBody: bool): (p: Option<seq<Token>>)
    ensures p.Some? ==> p.value != []
  {
    if ts == [] then None
    else match ts[0]
      case Start(name) =>
        if IsBody(name) then Place(ts[1..], depth, true)
        else if !inBody then Place(ts[1..], depth, false)
        else if depth == 1 && IsReturn(name) then Some(ts)
        else Place(ts[1..], depth + 1, true)
      case End(name) =>
        if IsBody(name) then None
        else Place(ts[1..], if inBody && depth > 0 then depth - 1 else depth, inBody)
      case Chars(_) => Place(ts[1..], depth, inBody)
  }

  function Content(ts: seq<Token>): Option<seq<Token>> {
    match Close(ts, 0)
    case None => None
    case Some(k) => Some(ts[..k])
  }

  /** What the scan yields: the content of the element that is decoded, or nothing. */
  function Scan(ts: seq<Token>, depth: nat, inBody: bool): Option<seq<Token>> {
    match Place(ts, depth, inBody)
    case None => None
    case Some(place) => Content(place[1..])
  }

  lemma AdvanceTwice(k: Option<nat>, m: nat, n: nat)
    ensures Advance(Advance(k, m), n) == Advance(k, m + n)
  {
  }

  lemma CloseStep(t: Token, ts: seq<Token>, level: nat)
    ensures Close([t] + ts, level)
            == match t
               case Start(_) => Advance(Close(ts, level + 1), 1)
               case End(_) => if level == 0 then Some(0) else Advance(Close(ts, level - 1), 1)
               case Chars(_) => Advance(Close(ts, level), 1)
  {
    assert ([t] + ts)[1..] == ts;
  }

  lemma ContentAt(ts: seq<Token>, i: nat, j: nat)
    requires i <= j < |ts| && Close(ts[i..], 0) == Some(j - i)
    ensures Content(ts[i..]) == Some(ts[i..j])
  {
    assert ts[i..][..j - i] == ts[i..j];
  }

  /** Decoding an element reads up to its end tag. */
  method DecodeElement(ts: seq<Token>, i: nat) returns (content: Option<seq<Token>>)
    requires i <= |ts|
    ensures content == Content(ts[i..])
  {
    var j := i;
    var level: nat := 0;
    while j < |ts|
      invariant i <= j <= |ts|
      invariant Close(ts[i..], 0) == Advance(Close(ts[j..], level), j - i)
    {
      assert ts[j..] == [ts[j]] + ts[j + 1..];
      CloseStep(ts[j], ts[j + 1..], level);
      if ts[j].Start? {
        level := level + 1;
      } else if ts[j].End? {
        if level == 0 {
          ContentAt(ts, i, j);
          return Some(ts[i..j]);
        }
        level := level - 1;
      }
      AdvanceTwice(Close(ts[j + 1..], level), 1, j - i);
      j := j + 1;
    }
    return None;
  }

  method ExtractSoapBodyInnerText(ts: seq<Token>) returns (content: Option<seq<Token>>)
    ensures content == Scan(ts, 0, false)
  {
    var depth: nat := 0;
    var inBody := false;
    var i := 0;
    assert ts[0..] == ts;
    while i < |ts|
      invariant 0 <= i <= |ts|
      invariant Place(ts, 0, false) == Place(ts[i..], depth, inBody)
    {
      ghost var rest := ts[i..];
      assert rest[0] == ts[i] && rest[1..] == ts[i + 1..];
      match ts[i] {
        case Start(name) =>
          if Lower(name) == "body" {
            inBody := true;
          } else if inBody {
            depth := depth + 1;
            if depth == 2 && Lower(name) == "return" {
              content := DecodeElement(ts, i + 1);
              return;
            }
          }
        case End(name) =>
          if Lower(name) == "body" {
            return None;
          }
          if inBody && depth > 0 {
            depth := depth - 1;
          }
        case Chars(_) =>
      }
      i := i + 1;
    }
    return None;
  }

  // ---------- Documents ----------

  /** A sequence of sibling nodes: text or elements with children, each followed by the next sibling. */
  datatype Forest =
    | Nothing
    | Text(text: string, next: Forest)
    | Element(name: string, children: Forest, next: Forest)

  function Tokens(f: Forest): seq<Token> {
    match f
    case Nothing => []
    case Text(text, next) => [Chars(text)] + Tokens(next)
    case Element(name, children, next) => [Start(name)] + (Tokens(children) + ([End(name)] + Tokens(next)))
  }

  predicate HasBody(f: Forest) {
    match f
    case Nothing => false
    case Text(_, next) => HasBody(next)
    case Element(name, children, next) => IsBody(name) || HasBody(children) || HasBody(next)
  }

  /** The content of the first Body in document order. */
  function FirstBody(f: Forest): Option<Forest> {
    match f
    case Nothing => None
    case Text(_, next) => FirstBody(next)
    case Element(name, children, next) =>
      if IsBody(name) then Some(children)
      else if FirstBody(children).Some? then FirstBody(children)
      else FirstBody(next)
  }

  /** The content of the first element named return among siblings. */
  function FirstReturn(f: Forest): Option<Forest> {
    match f
    case Nothing => None
    case Text(_, next) => FirstReturn(next)
    case Element(name, children, next) => if IsReturn(name) then Some(children) else FirstReturn(next)
  }

  /** The first return element that is a child of one of the siblings. */
  function FirstInner(f: Forest): Option<Forest> {
    match f
    case Nothing => None
    case Text(_, next) => FirstInner(next)
    case Element(_, children, next) =>
      if FirstReturn(children).Some? then FirstReturn(children) else FirstInner(next)
  }

  /** The content of the first return element that is a child of a child of Body. */
  function Query(document: Forest): Option<Forest> {
    match FirstBody(document)
    case None => None
    case Some(body) => FirstInner(body)
  }

  function TokensOf(f: Option<Forest>): Option<seq<Token>> {
    match f
    case None => None
    case Some(forest) => Some(Tokens(forest))
  }

  lemma {:induction false} CloseOver(f: Forest, rest: seq<Token>, level: nat)
    ensures Close(Tokens(f) + rest, level) == Advance(Close(rest, level), |Tokens(f)|)
  {
    match f
    case Nothing =>
      assert [] + rest == rest;
    case Text(text, next) =>
      CloseOver(next, rest, level);
      Tail(Chars(text), Tokens(next), rest);
      CloseStep(Chars(text), Tokens(next) + rest, level);
      AdvanceTwice(Close(rest, level), |Tokens(next)|, 1);
    case Element(name, children, next) =>
      var k := Close(rest, level);
      var after := [End(name)] + (Tokens(next) + rest);
      Around(name, Tokens(children), Tokens(next), rest);
      CloseStep(Start(name), Tokens(children) + after, level);
      CloseOver(children, after, level + 1);
      CloseStep(End(name), Tokens(next) + rest, level + 1);
      CloseOver(next, rest, level);
      AdvanceTwice(k, |Tokens(next)|, 1);
      AdvanceTwice(k, |Tokens(next)| + 1, |Tokens(children)|);
      AdvanceTwice(k, |Tokens(next)| + 1 + |Tokens(children)|, 1);
  }

  lemma Tail(t: Token, ts: seq<Token>, rest: seq<Token>)
    ensures ([t] + ts) + rest == [t] + (ts + rest)
    ensures ([t] + (ts + rest))[1..] == ts + rest
  {
  }

  lemma Around(name: string, inner: seq<Token>, next: seq<Token>, rest: seq<Token>)
    ensures ([Start(name)] + (inner + ([End(name)] + next))) + rest
            == [Start(name)] + (inner + ([End(name)] + (next + rest)))
    ensures ([Start(name)] + (inner + ([End(name)] + (next + rest))))[1..] == inner + ([End(name)] + (next + rest))
    ensures ([End(name)] + (next + rest))[1..] == next + rest
  {
  }

  // ---------- The depth counter ----------

  /** Start tags less end tags: the elements that are open after `ts`. */
  function Opened(ts: seq<Token>): int {
    if ts == [] then 0
    else (match ts[0] case Start(_) => 1 case End(_) => -1 case Chars(_) => 0) + Opened(ts[1..])
  }

  /**
   From `depth` open elements on, `ts` closes no more than it finds open, names no body, and
   reaches no return at depth two.
   */
  predicate Passing(ts: seq<Token>, depth: nat) {
    ts == [] ||
      match ts[0]
      case Start(name) => !IsBody(name) && !(depth == 1 && IsReturn(name)) && Passing(ts[1..], depth + 1)
      case End(name) => !IsBody(name) && depth > 0 && Passing(ts[1..], depth - 1)
      case Chars(_) => Passing(ts[1..], depth)
  }

  /** Inside Body, as long as the scan goes on, its counter is the number of open elements. */
  lemma {:induction false} DepthIsOpenElements(ts: seq<Token>, rest: seq<Token>, depth: nat)
    requires Passing(ts, depth)
    ensures depth + Opened(ts) >= 0
    ensures Place(ts + rest, depth, true) == Place(rest, depth + Opened(ts), true)
    decreases |ts|
  {
    if ts == [] {
      assert ts + rest == rest;
    } else {
      assert (ts + rest)[1..] == ts[1..] + rest;
      match ts[0]
      case Start(_) => DepthIsOpenElements(ts[1..], rest, depth + 1);
      case End(_) => DepthIsOpenElements(ts[1..], rest, depth - 1);
      case Chars(_) => DepthIsOpenElements(ts[1..], rest, depth);
    }
  }

  lemma {:induction false} PassingConcat(xs: seq<Token>, ys: seq<Token>, depth: nat)
    requires Passing(xs, depth) && depth + Opened(xs) >= 0 && Passing(ys, depth + Opened(xs))
    ensures Passing(xs + ys, depth) && Opened(xs + ys) == Opened(xs) + Opened(ys)
    decreases |xs|
  {
    if xs == [] {
      assert xs + ys == ys;
    } else {
      assert (xs + ys)[1..] == xs[1..] + ys;
      match xs[0]
      case Start(_) => PassingConcat(xs[1..], ys, depth + 1);
      case End(_) => PassingConcat(xs[1..], ys, depth - 1);
      case Chars(_) => PassingConcat(xs[1..], ys, depth);
    }
  }

  /** Siblings deeper than a return could be, and without a body, pass and leave nothing open. */
  lemma {:induction false} ForestPasses(f: Forest, depth: nat)
    requires depth >= 2 && !HasBody(f)
    ensures Passing(Tokens(f), depth) && Opened(Tokens(f)) == 0
  {
    match f
    case Nothing =>
    case Text(text, next) =>
      ForestPasses(next, depth);
      assert ([Chars(text)] + Tokens(next))[1..] == Tokens(next);
    case Element(name, children, next) =>
      ForestPasses(next, depth);
      ForestPasses(children, depth + 1);
      var after := [End(name)] + Tokens(next);
      assert after[1..] == Tokens(next);
      PassingConcat(Tokens(children), after, depth + 1);
      assert ([Start(name)] + (Tokens(children) + after))[1..] == Tokens(children) + after;
  }

  /** Elements more than two levels inside Body leave the scan where it was. */
  lemma ScanDeep(f: Forest, rest: seq<Token>, depth: nat)
    requires depth >= 2 && !HasBody(f)
    ensures Scan(Tokens(f) + rest, depth, true) == Scan(rest, depth, true)
  {
    ForestPasses(f, depth);
    DepthIsOpenElements(Tokens(f), rest, depth);
  }

  lemma ContentOf(f: Forest, name: string, rest: seq<Token>)
    ensures Content(Tokens(f) + ([End(name)] + rest)) == Some(Tokens(f))
  {
    CloseOver(f, [End(name)] + rest, 0);
    assert (Tokens(f) + ([End(name)] + rest))[..|Tokens(f)|] == Tokens(f);
  }

  // ---------- What the scan sees of a document ----------

  /** How the search of some siblings ends: at an element, at the end of the search, or after the last sibling. */
  datatype Look = Found(place: seq<Token>, content: Forest) | Stopped | Passed

  function PlaceOf(l: Look): Option<seq<Token>> {
    match l
    case Found(place, _) => Some(place)
    case _ => None
  }

  /** Found elements are where they should be, and decoding them gives their content. */
  predicate Genuine(l: Look, before: nat, total: nat) {
    l.Found? ==> before < |l.place| <= total && Content(l.place[1..]) == Some(Tokens(l.content))
  }

  /**
   The scan of siblings inside Body, before the tokens `rest`: a nested body is
   looked through without counting as a level, and its end tag ends the scan.
   */
  function Inside(f: Forest, depth: nat, rest: seq<Token>): Look {
    match f
    case Nothing => Passed
    case Text(_, next) => Inside(next, depth, rest)
    case Element(name, children, next) =>
      var after := [End(name)] + (Tokens(next) + rest);
      if IsBody(name) then
        var l := Inside(children, depth, after);
        if l.Passed? then Stopped else l
      else if depth == 1 && IsReturn(name) then Found(Tokens(f) + rest, children)
      else
        var l := Inside(children, depth + 1, after);
        if l.Passed? then Inside(next, depth, rest) else l
  }

  /** The scan before any Body has begun. */
  function Outside(f: Forest, rest: seq<Token>): Look {
    match f
    case Nothing => Passed
    case Text(_, next) => Outside(next, rest)
    case Element(name, children, next) =>
      var after := [End(name)] + (Tokens(next) + rest);
      if IsBody(name) then
        var l := Inside(children, 0, after);
        if l.Passed? then Stopped else l
      else
        var l := Outside(children, after);
        if l.Passed? then Outside(next, rest) else l
  }

  function Seen(document: Forest): Option<seq<Token>> {
    match Outside(document, [])
    case Found(_, content) => Some(Tokens(content))
    case _ => None
  }

  lemma {:induction false} PlaceInside(f: Forest, depth: nat, rest: seq<Token>)
    ensures Place(Tokens(f) + rest, depth, true)
            == if Inside(f, depth, rest).Passed? then Place(rest, depth, true) else PlaceOf(Inside(f, depth, rest))
    ensures Genuine(Inside(f, depth, rest), |rest|, |Tokens(f) + rest|)
  {
    match f
    case Nothing =>
      assert [] + rest == rest;
    case Text(text, next) =>
      PlaceInside(next, depth, rest);
      Tail(Chars(text), Tokens(next), rest);
    case Element(name, children, next) =>
      var after := [End(name)] + (Tokens(next) + rest);
      Around(name, Tokens(children), Tokens(next), rest);
      if IsBody(name) {
        PlaceInside(children, depth, after);
      } else if depth == 1 && IsReturn(name) {
        ContentOf(children, name, Tokens(next) + rest);
      } else {
        PlaceInside(children, depth + 1, after);
        PlaceInside(next, depth, rest);
      }
  }

  lemma {:induction false} PlaceOutside(f: Forest, rest: seq<Token>)
    ensures Place(Tokens(f) + rest, 0, false)
            == if Outside(f, rest).Passed? then Place(rest, 0, false) else PlaceOf(Outside(f, rest))
    ensures Genuine(Outside(f, rest), |rest|, |Tokens(f) + rest|)
  {
    match f
    case Nothing =>
      assert [] + rest == rest;
    case Text(text, next) =>
      PlaceOutside(next, rest);
      Tail(Chars(text), Tokens(next), rest);
    case Element(name, children, next) =>
      var after := [End(name)] + (Tokens(next) + rest);
      Around(name, Tokens(children), Tokens(next), rest);
      if IsBody(name) {
        PlaceInside(children, 0, after);
      } else {
        PlaceOutside(children, after);
        PlaceOutside(next, rest);
      }
  }

  /** On every document whatsoever, the streaming scan yields what `Seen` says of the tree. */
  lemma ScanIsSeen(document: Forest)
    ensures Scan(Tokens(document), 0, false) == Seen(document)
    ensures Place(Tokens(document), 0, false) == PlaceOf(Outside(document, []))
  {
    PlaceOutside(document, []);
    assert Tokens(document) + [] == Tokens(document);
  }

  // ---------- The query, with the place of its answer ----------

  function ReturnAt(f: Forest, rest: seq<Token>): Look {
    match f
    case Nothing => Passed
    case Text(_, next) => ReturnAt(next, rest)
    case Element(name, children, next) =>
      if IsReturn(name) then Found(Tokens(f) + rest, children) else ReturnAt(next, rest)
  }

  function InnerAt(f: Forest, rest: seq<Token>): Look {
    match f
    case Nothing => Passed
    case Text(_, next) => InnerAt(next, rest)
    case Element(name, children, next) =>
      var l := ReturnAt(children, [End(name)] + (Tokens(next) + rest));
      if l.Found? then l else InnerAt(next, rest)
  }

  function QueryAt(f: Forest, rest: seq<Token>): Look {
    match f
    case Nothing => Passed
    case Text(_, next) => QueryAt(next, rest)
    case Element(name, children, next) =>
      var after := [End(name)] + (Tokens(next) + rest);
      if IsBody(name) then
        var l := InnerAt(children, after);
        if l.Passed? then Stopped else l
      else
        var l := QueryAt(children, after);
        if l.Passed? then QueryAt(next, rest) else l
  }

  lemma {:induction false} ReturnIs(f: Forest, rest: seq<Token>)
    ensures var l := ReturnAt(f, rest);
            && Genuine(l, |rest|, |Tokens(f) + rest|)
            && if l.Found? then FirstReturn(f) == Some(l.content) else l.Passed? && FirstReturn(f) == None
  {
    match f
    case Nothing =>
    case Text(_, next) =>
      ReturnIs(next, rest);
    case Element(name, children, next) =>
      ReturnIs(next, rest);
      Around(name, Tokens(children), Tokens(next), rest);
      ContentOf(children, name, Tokens(next) + rest);
  }

  lemma {:induction false} InnerIs(f: Forest, rest: seq<Token>)
    ensures var l := InnerAt(f, rest);
            && Genuine(l, |rest|, |Tokens(f) + rest|)
            && if l.Found? then FirstInner(f) == Some(l.content) else l.Passed? && FirstInner(f) == None
  {
    match f
    case Nothing =>
    case Text(_, next) =>
      InnerIs(next, rest);
    case Element(name, children, next) =>
      InnerIs(next, rest);
      ReturnIs(children, [End(name)] + (Tokens(next) + rest));
  }

  lemma {:induction false} QueryIs(f: Forest, rest: seq<Token>)
    ensures var l := QueryAt(f, rest);
            && Genuine(l, |rest|, |Tokens(f) + rest|)
            && (l.Passed? <==> FirstBody(f).None?)
            && if l.Found? then Query(f) == Some(l.content) else Query(f) == None
  {
    match f
    case Nothing =>
    case Text(_, next) =>
      QueryIs(next, rest);
    case Element(name, children, next) =>
      var after := [End(name)] + (Tokens(next) + rest);
      if IsBody(name) {
        InnerIs(children, after);
      } else {
        QueryIs(children, after);
        QueryIs(next, rest);
      }
  }
}
