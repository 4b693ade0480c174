/**
 When the streaming scan of a SOAP response and the query on its tree find the
 same element. They differ only on documents with a body inside the Body.
 */
module SoapQuery {
  import opened Common
  import opened Soap

  /** What comes first among siblings inside Body: the answer, a nested body with its content and level, or neither. */
  datatype First = Hit | Nested(content: Forest, depth: nat) | Neither

  function FirstOf(f: Forest, depth: nat): First {
    match f
    case Nothing => Neither
    case Text(_, next) => FirstOf(next, depth)
    case Element(name, children, next) =>
      if IsBody(name) then Nested(children, depth)
      else if depth == 1 && IsReturn(name) then Hit
      else if FirstOf(children, depth + 1) != Neither then FirstOf(children, depth + 1)
      else FirstOf(next, depth)
  }

  /** Looking through a nested body at its own level, the scan finds an element in it. */
  predicate Misread(nested: First) {
    nested.Nested? && Inside(nested.content, nested.depth, []).Found?
  }

  /**
   No body is nested before the answer; or one is, but nothing in it is misread and the query
   finds nothing either.
   */
  predicate Harmless(body: Forest) {
    var first := FirstOf(body, 0);
    first.Nested? ==> !Misread(first) && FirstInner(body).None?
  }

  // ---------- Without a nested body in the way ----------

  lemma {:induction false} NeitherPasses(f: Forest, depth: nat, rest: seq<Token>)
    requires FirstOf(f, depth) == Neither
    ensures Inside(f, depth, rest).Passed?
    ensures depth == 1 ==> ReturnAt(f, rest).Passed?
    ensures depth == 0 ==> InnerAt(f, rest).Passed?
  {
    match f
    case Nothing =>
    case Text(_, next) =>
      NeitherPasses(next, depth, rest);
    case Element(name, children, next) =>
      NeitherPasses(children, depth + 1, [End(name)] + (Tokens(next) + rest));
      NeitherPasses(next, depth, rest);
  }

  lemma {:induction false} NoHitDeep(f: Forest, depth: nat)
    requires depth >= 2
    ensures !FirstOf(f, depth).Hit?
  {
    match f
    case Nothing =>
    case Text(_, next) =>
      NoHitDeep(next, depth);
    case Element(name, children, next) =>
      NoHitDeep(children, depth + 1);
      NoHitDeep(next, depth);
  }

  lemma {:induction false} HitIsReturn(f: Forest, rest: seq<Token>)
    requires FirstOf(f, 1).Hit?
    ensures Inside(f, 1, rest) == ReturnAt(f, rest) && ReturnAt(f, rest).Found?
  {
    match f
    case Nothing =>
    case Text(_, next) =>
      HitIsReturn(next, rest);
    case Element(name, children, next) =>
      if !IsReturn(name) {
        NoHitDeep(children, 2);
        NeitherPasses(children, 2, [End(name)] + (Tokens(next) + rest));
        HitIsReturn(next, rest);
      }
  }

  lemma {:induction false} HitIsInner(f: Forest, rest: seq<Token>)
    requires FirstOf(f, 0).Hit?
    ensures Inside(f, 0, rest) == InnerAt(f, rest) && InnerAt(f, rest).Found?
  {
    match f
    case Nothing =>
    case Text(_, next) =>
      HitIsInner(next, rest);
    case Element(name, children, next) =>
      var after := [End(name)] + (Tokens(next) + rest);
      if FirstOf(children, 1) == Neither {
        NeitherPasses(children, 1, after);
        HitIsInner(next, rest);
      } else {
        HitIsReturn(children, after);
      }
  }

  // ---------- With a nested body first ----------

  /** Whether something is found does not depend on what follows. */
  lemma {:induction false} SameKind(f: Forest, depth: nat, rest: seq<Token>, rest': seq<Token>)
    ensures var l, l' := Inside(f, depth, rest), Inside(f, depth, rest');
            (l.Found? <==> l'.Found?) && (l.Passed? <==> l'.Passed?)
  {
    match f
    case Nothing =>
    case Text(_, next) =>
      SameKind(next, depth, rest, rest');
    case Element(name, children, next) =>
      SameKind(children, depth, [End(name)] + (Tokens(next) + rest), [End(name)] + (Tokens(next) + rest'));
      SameKind(children, depth + 1, [End(name)] + (Tokens(next) + rest), [End(name)] + (Tokens(next) + rest'));
      SameKind(next, depth, rest, rest');
  }

  /** A nested body that comes first decides the scan. */
  lemma {:induction false} NestedDecides(f: Forest, depth: nat, rest: seq<Token>)
    requires FirstOf(f, depth).Nested?
    ensures if Misread(FirstOf(f, depth)) then Inside(f, depth, rest).Found? else Inside(f, depth, rest).Stopped?
  {
    match f
    case Nothing =>
    case Text(_, next) =>
      NestedDecides(next, depth, rest);
    case Element(name, children, next) =>
      var after := [End(name)] + (Tokens(next) + rest);
      if IsBody(name) {
        SameKind(children, depth, after, []);
      } else if FirstOf(children, depth + 1).Nested? {
        NestedDecides(children, depth + 1, after);
      } else {
        NeitherPasses(children, depth + 1, after);
        NestedDecides(next, depth, rest);
      }
  }

  predicate ElsewhereThan(l: Look, k: Look) {
    l.Found? && k.Found? ==> l.place != k.place
  }

  lemma Lengths(name: string, children: Forest, next: Forest, rest: seq<Token>)
    ensures |Tokens(next) + rest| < |[End(name)] + (Tokens(next) + rest)|
    ensures |Tokens(children) + ([End(name)] + (Tokens(next) + rest))| < |Tokens(Element(name, children, next)) + rest|
  {
  }

  lemma BodyIsNotReturn(name: string)
    ensures !(IsBody(name) && IsReturn(name))
  {
  }

  /**
   Inside an element the scan finds something between its start tag and its end tag, where
   none of its siblings is.
   */
  lemma Between(name: string, children: Forest, next: Forest, depth: nat, rest: seq<Token>)
    ensures var l := Inside(children, depth, [End(name)] + (Tokens(next) + rest));
            l.Found? ==> |Tokens(next) + rest| < |l.place| < |Tokens(Element(name, children, next)) + rest|
    ensures ReturnAt(next, rest).Found? ==> |ReturnAt(next, rest).place| <= |Tokens(next) + rest|
    ensures InnerAt(next, rest).Found? ==> |InnerAt(next, rest).place| <= |Tokens(next) + rest|
  {
    PlaceInside(children, depth, [End(name)] + (Tokens(next) + rest));
    Lengths(name, children, next, rest);
    ReturnIs(next, rest);
    InnerIs(next, rest);
  }

  /** What a scan finds below the level of siblings is none of the siblings. */
  lemma {:induction false} BelowSiblings(f: Forest, rest: seq<Token>)
    ensures ElsewhereThan(Inside(f, 0, rest), ReturnAt(f, rest))
    ensures FirstOf(f, 1).Nested? ==> ElsewhereThan(Inside(f, 1, rest), ReturnAt(f, rest))
  {
    match f
    case Nothing =>
    case Text(_, next) =>
      BelowSiblings(next, rest);
    case Element(name, children, next) =>
      BelowSiblings(next, rest);
      BodyIsNotReturn(name);
      Between(name, children, next, 0, rest);
      Between(name, children, next, 1, rest);
      Between(name, children, next, 2, rest);
      PlaceInside(next, 0, rest);
      Lengths(name, children, next, rest);
      NoHitDeep(children, 2);
      if FirstOf(children, 2).Nested? {
        NestedDecides(children, 2, [End(name)] + (Tokens(next) + rest));
      } else if FirstOf(children, 2) == Neither {
        NeitherPasses(children, 2, [End(name)] + (Tokens(next) + rest));
      }
  }

  /** What is found by way of a nested body is not what the query finds. */
  lemma {:induction false} MisreadIsWrong(f: Forest, rest: seq<Token>)
    requires FirstOf(f, 0).Nested?
    ensures ElsewhereThan(Inside(f, 0, rest), InnerAt(f, rest))
  {
    match f
    case Nothing =>
    case Text(_, next) =>
      MisreadIsWrong(next, rest);
    case Element(name, children, next) =>
      var after := [End(name)] + (Tokens(next) + rest);
      BelowSiblings(children, after);
      if IsBody(name) {
        Between(name, children, next, 0, rest);
      } else if FirstOf(children, 1).Nested? {
        Between(name, children, next, 1, rest);
        NestedDecides(children, 1, after);
      } else {
        NeitherPasses(children, 1, after);
        MisreadIsWrong(next, rest);
      }
  }

  // ---------- The theorem ----------

  lemma BodyAgrees(body: Forest, rest: seq<Token>)
    ensures PlaceOf(Inside(body, 0, rest)) == PlaceOf(InnerAt(body, rest)) <==> Harmless(body)
  {
    InnerIs(body, rest);
    match FirstOf(body, 0)
    case Hit => HitIsInner(body, rest);
    case Neither => NeitherPasses(body, 0, rest);
    case Nested(_, _) =>
      NestedDecides(body, 0, rest);
      MisreadIsWrong(body, rest);
  }

  lemma {:induction false} DocumentAgrees(f: Forest, rest: seq<Token>)
    ensures Outside(f, rest).Passed? <==> QueryAt(f, rest).Passed?
    ensures PlaceOf(Outside(f, rest)) == PlaceOf(QueryAt(f, rest))
            <==> (FirstBody(f).Some? ==> Harmless(FirstBody(f).value))
  {
    QueryIs(f, rest);
    match f
    case Nothing =>
    case Text(_, next) =>
      DocumentAgrees(next, rest);
    case Element(name, children, next) =>
      var after := [End(name)] + (Tokens(next) + rest);
      if IsBody(name) {
        BodyAgrees(children, after);
      } else {
        QueryIs(children, after);
        DocumentAgrees(children, after);
        DocumentAgrees(next, rest);
      }
  }

  /**
   The scan and the query come to the same element, or both to none, if and only
   if the first Body is harmless: no body nested in it comes before the answer,
   unless nothing in that one is misread and there is no answer.
   */
  lemma SameElementExactly(document: Forest)
    ensures Place(Tokens(document), 0, false) == PlaceOf(QueryAt(document, []))
            <==> (FirstBody(document).Some? ==> Harmless(FirstBody(document).value))
  {
    ScanIsSeen(document);
    DocumentAgrees(document, []);
  }

  /** On every such document the scan yields the query's answer. */
  lemma ScanIsQuery(document: Forest)
    requires FirstBody(document).Some? ==> Harmless(FirstBody(document).value)
    ensures Scan(Tokens(document), 0, false) == TokensOf(Query(document))
  {
    SameElementExactly(document);
    QueryIs(document, []);
  }

  /** A Body without a further body is harmless. */
  lemma {:induction false} NoNestedBody(f: Forest, depth: nat)
    requires !HasBody(f)
    ensures !FirstOf(f, depth).Nested?
    ensures Harmless(f)
  {
    match f
    case Nothing =>
    case Text(_, next) =>
      NoNestedBody(next, depth);
      NoNestedBody(next, 0);
    case Element(name, children, next) =>
      NoNestedBody(children, depth + 1);
      NoNestedBody(next, depth);
      NoNestedBody(children, 1);
      NoNestedBody(next, 0);
  }

  /** On every document whose first Body contains no further body the scan yields the query's answer. */
  lemma ScanIsQueryUnnested(document: Forest)
    requires FirstBody(document).Some? ==> !HasBody(FirstBody(document).value)
    ensures Scan(Tokens(document), 0, false) == TokensOf(Query(document))
  {
    if FirstBody(document).Some? {
      NoNestedBody(FirstBody(document).value, 0);
    }
    ScanIsQuery(document);
  }

  // ---------- The two ways to differ ----------

  /** An empty body before the answer: the scan ends at its end tag, whatever the query finds after it. */
  lemma NestedBodyEndsScan(outer: string, inner: string, next: Forest, after: Forest)
    requires IsBody(outer) && IsBody(inner)
    ensures var document := Element(outer, Element(inner, Nothing, next), after);
            Scan(Tokens(document), 0, false) == None && Query(document) == FirstInner(next)
  {
    var body := Element(inner, Nothing, next);
    var rest := [End(outer)] + (Tokens(after) + []);
    assert Inside(Nothing, 0, [End(inner)] + (Tokens(next) + rest)).Passed?;
    assert Inside(body, 0, rest).Stopped?;
    assert Outside(Element(outer, body, after), []).Stopped?;
    ScanIsSeen(Element(outer, body, after));
    assert FirstReturn(Nothing) == None && FirstInner(body) == FirstInner(next);
  }

  /** A return element in a body one level down: the scan takes it, the query does not. */
  lemma NestedBodyMisread(outer: string, w: string, inner: string, r: string, content: Forest, after: Forest)
    requires IsBody(outer) && IsBody(inner) && IsReturn(r) && !IsBody(w) && !IsReturn(w)
    ensures var nested := Element(inner, Element(r, content, Nothing), Nothing);
            var document := Element(outer, Element(w, nested, Nothing), after);
            Scan(Tokens(document), 0, false) == Some(Tokens(content)) && Query(document) == None
  {
    BodyIsNotReturn(inner);
    BodyIsNotReturn(r);
    var answer := Element(r, content, Nothing);
    var nested := Element(inner, answer, Nothing);
    var body := Element(w, nested, Nothing);
    var rest := [End(outer)] + (Tokens(after) + []);
    var rest' := [End(w)] + (Tokens(Nothing) + rest);
    var l := Inside(answer, 1, [End(inner)] + (Tokens(Nothing) + rest'));
    assert l.Found? && l.content == content;
    assert Inside(nested, 1, rest') == l;
    assert Inside(body, 0, rest) == l;
    assert Outside(Element(outer, body, after), []) == l;
    ScanIsSeen(Element(outer, body, after));
    assert FirstReturn(nested) == FirstReturn(Nothing) == None;
    assert FirstInner(body) == FirstInner(Nothing) == None;
  }
}
