/** HTML entity decoding as rigflow-client/src/logging/qrz.rs does it: one whole-text replacement per entity. */
module HtmlEntities {
  import opened Wrappers

  datatype Entity = Entity(text: string, plain: char)

  const LT := Entity("&lt;", '<')
  const GT := Entity("&gt;", '>')
  const QUOT := Entity("&quot;", '"')
  const APOS := Entity("&#39;", '\'')
  const AMP := Entity("&amp;", '&')

  /** `str::replace`: every occurrence, found left to right, none overlapping. */
  function Replace(s: string, e: Entity): string
    requires e.text != ""
  {
    if s == "" then ""
    else if e.text <= s then [e.plain] + Replace(s[|e.text|..], e)
    else [s[0]] + Replace(s[1..], e)
  }

  /** The five replacements in the order the decoder applies them. */
  function HtmlDecode(s: string): string {
    Replace(Replace(Replace(Replace(Replace(s, LT), GT), QUOT), APOS), AMP)
  }

  // ---- the reference: one pass over the text, all entities at once --------------

  /** The entity of `es` standing at the start of `s`. */
  function At(s: string, es: seq<Entity>): (e: Option<Entity>)
    ensures e.Some? ==> e.value in es && e.value.text <= s
    ensures e.None? ==> forall k :: 0 <= k < |es| ==> !(es[k].text <= s)
  {
    if es == [] then None
    else if es[0].text <= s then Some(es[0])
    else At(s, es[1..])
  }

  predicate Nonempty(es: seq<Entity>) {
    forall k :: 0 <= k < |es| ==> es[k].text != ""
  }

  function SinglePass(s: string, es: seq<Entity>): string
    requires Nonempty(es)
  {
    if s == "" then ""
    else match At(s, es)
      case Some(e) => [e.plain] + SinglePass(s[|e.text|..], es)
      case None => [s[0]] + SinglePass(s[1..], es)
  }

  /** `&` opens an entity and occurs nowhere else in it. */
  predicate Opens(e: Entity) {
    |e.text| >= 2 && e.text[0] == '&' && '&' !in e.text[1..]
  }

  /** `e` may be replaced after all of `es`: no earlier replacement can have produced a piece of it, or stand where it stands. */
  predicate MayFollow(es: seq<Entity>, e: Entity) {
    && Opens(e)
    && (forall k :: 0 <= k < |es| ==> Opens(es[k]) && es[k].plain !in e.text)
    && (forall k :: 0 <= k < |es| ==> es[k].text[1] != e.text[1])
  }

  // ---- sequential replacement is a single pass ----------------------------------

  lemma {:induction false} AtAppend(s: string, es: seq<Entity>, e: Entity)
    ensures At(s, es + [e])
            == if At(s, es).Some? then At(s, es) else if e.text <= s then Some(e) else None
    decreases |es|
  {
    if es == [] {
      assert (es + [e])[1..] == [];
    } else {
      assert (es + [e])[1..] == es[1..] + [e];
      AtAppend(s, es[1..], e);
    }
  }

  /** A piece without `&` and without a replacement's character shows up in the decoded text only where it stood before. */
  lemma {:induction false} PieceWasThere(u: string, es: seq<Entity>, piece: string)
    requires Nonempty(es) && '&' !in piece
    requires forall k :: 0 <= k < |es| ==> Opens(es[k]) && es[k].plain !in piece
    requires piece <= SinglePass(u, es)
    ensures piece <= u
    decreases |piece|
  {
    if piece != "" {
      assert piece[0] == SinglePass(u, es)[0] && piece[0] in piece;
      if At(u, es).Some? {
        assert false;
      }
      assert piece[1..] <= SinglePass(u[1..], es);
      PieceWasThere(u[1..], es, piece[1..]);
      assert piece == [piece[0]] + piece[1..];
    }
  }

  /** No entity starts inside another one, so a piece in front of `rest` is passed over unchanged. */
  lemma {:induction false} PassOver(piece: string, rest: string, es: seq<Entity>)
    requires Nonempty(es) && '&' !in piece
    requires forall k :: 0 <= k < |es| ==> Opens(es[k])
    ensures SinglePass(piece + rest, es) == piece + SinglePass(rest, es)
    decreases |piece|
  {
    if piece == "" {
      assert piece + rest == rest;
    } else {
      hide At, Opens;
      assert (piece + rest)[0] == piece[0] && piece[0] in piece;
      NothingOpens(piece + rest, es);
      assert (piece + rest)[1..] == piece[1..] + rest;
      PassOver(piece[1..], rest, es);
      assert piece == [piece[0]] + piece[1..];
    }
  }

  lemma NothingOpens(s: string, es: seq<Entity>)
    requires s != "" && s[0] != '&'
    requires forall k :: 0 <= k < |es| ==> Opens(es[k])
    ensures At(s, es) == None
  {
    hide At;
  }

  /** One more replacement behind a single pass is a single pass that knows one more entity. */
  lemma {:induction false} OneMoreStage(s: string, es: seq<Entity>, e: Entity)
    requires Nonempty(es) && MayFollow(es, e)
    ensures Replace(SinglePass(s, es), e) == SinglePass(s, es + [e])
    decreases |s|
  {
    if s != "" {
      AtAppend(s, es, e);
      if At(s, es).Some? {
        ReplacedAlready(s, es, e, At(s, es).value);
      } else if e.text <= s {
        ReplacedNow(s, es, e);
      } else {
        NotReplaced(s, es, e);
      }
    }
  }

  lemma ReplacedAlready(s: string, es: seq<Entity>, e: Entity, d: Entity)
    requires Nonempty(es) && MayFollow(es, e) && s != ""
    requires At(s, es) == Some(d) && At(s, es + [e]) == Some(d)
    ensures Replace(SinglePass(s, es), e) == SinglePass(s, es + [e])
    decreases |s|, 0
  {
    OneMoreStage(s[|d.text|..], es, e);
    var rest := SinglePass(s[|d.text|..], es);
    assert !(e.text <= [d.plain] + rest) by {
      assert e.text[0] in e.text;
    }
    assert ([d.plain] + rest)[1..] == rest;
  }

  lemma ReplaceAtStart(e: Entity, rest: string)
    requires e.text != ""
    ensures Replace(e.text + rest, e) == [e.plain] + Replace(rest, e)
  {
    assert (e.text + rest)[|e.text|..] == rest;
  }

  lemma ReplacedNow(s: string, es: seq<Entity>, e: Entity)
    requires Nonempty(es) && MayFollow(es, e) && s != "" && e.text <= s
    requires At(s, es).None? && At(s, es + [e]) == Some(e)
    ensures Replace(SinglePass(s, es), e) == SinglePass(s, es + [e])
    decreases |s|, 0
  {
    hide At, Replace;
    var rest := s[|e.text|..];
    OneMoreStage(rest, es, e);
    PassOverEntity(s, es, e, rest);
    ReplaceAtStart(e, SinglePass(rest, es));
  }

  lemma StepOver(s: string, es: seq<Entity>)
    requires Nonempty(es) && s != "" && At(s, es).None?
    ensures SinglePass(s, es) == [s[0]] + SinglePass(s[1..], es)
  {
  }

  lemma PassOverEntity(s: string, es: seq<Entity>, e: Entity, rest: string)
    requires Nonempty(es) && MayFollow(es, e) && s == e.text + rest && At(s, es).None?
    ensures SinglePass(s, es) == e.text + SinglePass(rest, es)
  {
    hide At, SinglePass;
    assert s[0] == e.text[0] && s[1..] == e.text[1..] + rest;
    PassOver(e.text[1..], rest, es);
    StepOver(s, es);
    assert e.text == [s[0]] + e.text[1..];
    assert [s[0]] + (e.text[1..] + SinglePass(rest, es)) == ([s[0]] + e.text[1..]) + SinglePass(rest, es);
  }

  lemma NotReplaced(s: string, es: seq<Entity>, e: Entity)
    requires Nonempty(es) && MayFollow(es, e) && s != "" && !(e.text <= s)
    requires At(s, es).None? && At(s, es + [e]).None?
    ensures Replace(SinglePass(s, es), e) == SinglePass(s, es + [e])
    decreases |s|, 0
  {
    OneMoreStage(s[1..], es, e);
    var rest := SinglePass(s[1..], es);
    assert !(e.text <= [s[0]] + rest) by {
      if e.text <= [s[0]] + rest {
        EntityWasThere(s, es, e, rest);
      }
    }
    assert ([s[0]] + rest)[1..] == rest;
  }

  lemma EntityWasThere(s: string, es: seq<Entity>, e: Entity, rest: string)
    requires Nonempty(es) && MayFollow(es, e) && s != ""
    requires rest == SinglePass(s[1..], es) && e.text <= [s[0]] + rest
    ensures e.text <= s
  {
    hide SinglePass, At;
    assert ([s[0]] + rest)[1..] == rest;
    PieceWasThere(s[1..], es, e.text[1..]);
    assert e.text == [s[0]] + e.text[1..];
  }

  lemma {:induction false} NothingToDecode(s: string)
    ensures SinglePass(s, []) == s
  {
    if s != "" {
      NothingToDecode(s[1..]);
    }
  }

  const ENTITIES := [LT, GT, QUOT, APOS, AMP]

  lemma EntityOpens(k: nat)
    requires k < |ENTITIES|
    ensures Opens(ENTITIES[k])
  {
  }

  lemma PlainIsApart(i: nat, k: nat)
    requires i < k < |ENTITIES|
    ensures ENTITIES[i].plain !in ENTITIES[k].text
  {
    assert ENTITIES[i].plain in "<>\"'";
    assert forall j :: 0 <= j < |ENTITIES[k].text| ==> ENTITIES[k].text[j] in "&gtquoamp#39;";
  }

  lemma TableIsStaged(k: nat)
    requires k < |ENTITIES|
    ensures Nonempty(ENTITIES[..k]) && MayFollow(ENTITIES[..k], ENTITIES[k])
  {
    EntityOpens(k);
    forall i: nat | i < k
      ensures Opens(ENTITIES[i]) && ENTITIES[i].plain !in ENTITIES[k].text
      ensures ENTITIES[i].text[1] != ENTITIES[k].text[1]
    {
      EntityOpens(i);
      PlainIsApart(i, k);
    }
  }

  lemma Stage(s: string, k: nat)
    requires k < |ENTITIES|
    ensures Nonempty(ENTITIES[..k]) && Nonempty(ENTITIES[..k + 1])
    ensures Replace(SinglePass(s, ENTITIES[..k]), ENTITIES[k]) == SinglePass(s, ENTITIES[..k + 1])
  {
    hide Replace, SinglePass, At;
    TableIsStaged(k);
    OneMoreStage(s, ENTITIES[..k], ENTITIES[k]);
    assert ENTITIES[..k + 1] == ENTITIES[..k] + [ENTITIES[k]];
  }

  /** The decoder's five passes mean the same as one pass that knows all five entities. */
  lemma DecodeIsSinglePass(s: string)
    ensures Nonempty(ENTITIES) && HtmlDecode(s) == SinglePass(s, ENTITIES)
  {
    hide Replace, SinglePass, At;
    NothingToDecode(s);
    assert ENTITIES[..0] == [];
    Stage(s, 0);
    Stage(s, 1);
    Stage(s, 2);
    Stage(s, 3);
    Stage(s, 4);
    assert ENTITIES[..5] == ENTITIES;
  }

  // ---- decoding inverts escaping --------------------------------------------------

  function EscapeChar(c: char): string {
    match c
    case '<' => LT.text
    case '>' => GT.text
    case '"' => QUOT.text
    case '\'' => APOS.text
    case '&' => AMP.text
    case _ => [c]
  }

  function Escape(s: string): string {
    if s == "" then "" else EscapeChar(s[0]) + Escape(s[1..])
  }

  /** No two entities agree in their second character, so the one that stands there is found. */
  lemma FindsEntity(k: nat, rest: string)
    requires k < |ENTITIES|
    ensures At(ENTITIES[k].text + rest, ENTITIES) == Some(ENTITIES[k])
  {
    hide At;
    var s := ENTITIES[k].text + rest;
    assert ENTITIES[k].text <= s && s[1] == ENTITIES[k].text[1];
  }

  lemma DecodesEntity(k: nat, rest: string)
    requires k < |ENTITIES|
    ensures Nonempty(ENTITIES)
    ensures SinglePass(ENTITIES[k].text + rest, ENTITIES) == [ENTITIES[k].plain] + SinglePass(rest, ENTITIES)
  {
    hide At;
    FindsEntity(k, rest);
    assert (ENTITIES[k].text + rest)[|ENTITIES[k].text|..] == rest;
  }

  lemma DecodesOneChar(c: char, rest: string)
    ensures Nonempty(ENTITIES)
    ensures SinglePass(EscapeChar(c) + rest, ENTITIES) == [c] + SinglePass(rest, ENTITIES)
  {
    hide At, SinglePass;
    match c
    case '<' => DecodesEntity(0, rest);
    case '>' => DecodesEntity(1, rest);
    case '"' => DecodesEntity(2, rest);
    case '\'' => DecodesEntity(3, rest);
    case '&' => DecodesEntity(4, rest);
    case _ => PassOver([c], rest, ENTITIES);
  }

  lemma {:induction false} SinglePassUnescapes(s: string)
    ensures Nonempty(ENTITIES) && SinglePass(Escape(s), ENTITIES) == s
  {
    DecodeIsSinglePass(s);
    if s != "" {
      hide SinglePass, At, EscapeChar;
      DecodesOneChar(s[0], Escape(s[1..]));
      SinglePassUnescapes(s[1..]);
    }
  }

  /** Decoding undoes escaping, for every text. */
  lemma DecodeInvertsEscape(s: string)
    ensures HtmlDecode(Escape(s)) == s
  {
    DecodeIsSinglePass(Escape(s));
    SinglePassUnescapes(s);
  }

  lemma {:induction false} NothingToReplace(s: string, e: Entity)
    requires Opens(e) && '&' !in s
    ensures Replace(s, e) == s
  {
    if s != "" {
      assert s[0] in s;
      NothingToReplace(s[1..], e);
    }
  }

  /** Decoding `&amp;` first instead would turn the escaped text `&lt;` into `<`. */
  lemma AmpersandMustBeLast()
    ensures Replace(Replace(Escape("&lt;"), AMP), LT) == "<"
  {
    hide Replace;
    assert Escape("t;") == "t" + Escape(";") && Escape(";") == ";";
    assert Escape("lt;") == "lt;";
    assert Escape("&lt;") == AMP.text + "lt;";
    ReplaceAtStart(AMP, "lt;");
    NothingToReplace("lt;", AMP);
    ReplaceAtStart(LT, "");
    NothingToReplace("", LT);
    assert "&" + "lt;" == LT.text + "";
  }
}
