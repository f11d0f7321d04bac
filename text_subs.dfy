/**
 * Markup substitution applied to scenario text before it is rendered
 * (src/components/utils/handleTextSubs.js): a fixed chain of twelve global `replace` calls.
 *
 * The image asset paths and the `ELITE_RED` colour are imported values the file does not
 * define; they are the fields of an `Assets` parameter.
 */
module TextSubs {
  import opened GlobalReplace

  /** The imported values: the colour `ELITE_RED` and the nine icon image paths. */
  datatype Assets = Assets(
    eliteRed: string,
    action: string, surge: string, strain: string, block: string, damage: string,
    melee: string, strength: string, insight: string, tech: string)

  /** None of the imported values contains a `{`. */
  predicate BraceFree(a: Assets) {
    && '{' !in a.eliteRed && '{' !in a.action && '{' !in a.surge && '{' !in a.strain
    && '{' !in a.block && '{' !in a.damage && '{' !in a.melee && '{' !in a.strength
    && '{' !in a.insight && '{' !in a.tech
  }

  const IconTokens: seq<string> :=
    ["{ACTION}", "{SURGE}", "{STRAIN}", "{BLOCK}", "{DAMAGE}", "{MELEE}", "{STRENGTH}", "{INSIGHT}", "{TECH}"]

  /** The `alt` text of each icon image, in the order of `IconTokens`. */
  const IconNames: seq<string> :=
    ["Action", "Surge", "Strain", "Block", "Damage", "Melee", "Strength", "Insight", "Tech"]

  function IconSource(a: Assets, i: nat): string
    requires i < 9
  {
    [a.action, a.surge, a.strain, a.block, a.damage, a.melee, a.strength, a.insight, a.tech][i]
  }

  /** Height and width, in pixels, of each icon image. */
  const IconSizes: seq<(string, string)> :=
    [("24", "26"), ("24", "25"), ("24", "18"), ("20", "18"), ("24", "20"),
     ("24", "11"), ("24", "18"), ("24", "20"), ("24", "18")]

  function ImageTag(alt: string, src: string, size: (string, string)): string {
    "<img alt=\"" + alt + "\" src='" + src + "' style='height: " + size.0 + "px; width: "
      + size.1 + "px; vertical-align: middle' />"
  }

  function IconStage(a: Assets, i: nat): Rule
    requires i < 9
  {
    Literal(IconTokens[i], ImageTag(IconNames[i], IconSource(a, i), IconSizes[i]))
  }

  const BreakStage: Rule := Literal("{BREAK}", "<br />")

  const BoldStage: Rule := Pair("{BOLD}", "{END}", "<span style='font-weight: bold'>", "</span>")

  function EliteStage(a: Assets): Rule {
    Pair("{ELITE}", "{END}", "<span style='color: " + a.eliteRed + "; font-weight: bold'>", "</span>")
  }

  /** The twelve stages in the order the source applies them; every pattern starts with `{`. */
  function Stages(a: Assets): (rules: seq<Rule>)
    ensures |rules| == 12
    ensures rules[0] == BreakStage && rules[1] == BoldStage && rules[2] == EliteStage(a)
    ensures forall k :: 0 <= k < 12 ==> WellFormed(rules[k]) && Lead(rules[k])[0] == '{'
    ensures forall i :: 0 <= i < 9 ==> rules[3 + i] == IconStage(a, i)
  {
    [BreakStage, BoldStage, EliteStage(a)] + seq(9, i requires 0 <= i < 9 => IconStage(a, i))
  }

  /** The default export of handleTextSubs.js. */
  function HandleTextSubs(a: Assets, text: string): string {
    ApplyAll(Stages(a), text)
  }

  /** Text without a `{` comes back unchanged. */
  lemma HandleTextSubsWithoutBrace(a: Assets, text: string)
    requires '{' !in text
    ensures HandleTextSubs(a, text) == text
  {
    ApplyAllWithoutBrace(Stages(a), text);
  }

  /** Text before the first `{` is copied to the output unchanged and in order. */
  lemma HandleTextSubsCopiesPlainText(a: Assets, plain: string, text: string)
    requires '{' !in plain
    ensures HandleTextSubs(a, plain + text) == plain + HandleTextSubs(a, text)
  {
    ApplyAllCopiesPrefix(Stages(a), plain, text);
  }

  /** The `{BREAK}` stage leaves no `{BREAK}` behind. */
  lemma BreakStageRemovesBreak(s: string)
    ensures !Occurs("{BREAK}", Apply(BreakStage, s))
  {
    LiteralStageRemovesToken("{BREAK}", "<br />", s);
  }

  /** An image tag starts with `<img alt="`, then the alt text and its closing quote. */
  lemma ImageTagShape(alt: string, src: string, size: (string, string))
    ensures ImageTag(alt, src, size)[0] == '<'
    ensures ImageTag(alt, src, size)[..10] == "<img alt=\""
    ensures ImageTag(alt, src, size)[10..10 + |alt| + 1] == alt + "\""
  {
    var head := "<img alt=\"" + alt + "\"";
    var tail := " src='" + src + "' style='height: " + size.0 + "px; width: " + size.1 + "px; vertical-align: middle' />";
    assert ImageTag(alt, src, size) == head + tail;
    assert head[..10] == "<img alt=\"";
    assert head[10..] == alt + "\"";
  }

  lemma NoBraceInConcat(x: string, y: string)
    requires '{' !in x && '{' !in y
    ensures '{' !in x + y
  {
  }

  /** An image tag holds a `{` only if one of its pieces does. */
  lemma ImageTagBraceFree(alt: string, src: string, size: (string, string))
    requires '{' !in alt && '{' !in src && '{' !in size.0 && '{' !in size.1
    ensures '{' !in ImageTag(alt, src, size)
  {
    var p := "<img alt=\"" + alt;
    NoBraceInConcat("<img alt=\"", alt);
    NoBraceInConcat(p, "\" src='");
    p := p + "\" src='";
    NoBraceInConcat(p, src);
    p := p + src;
    NoBraceInConcat(p, "' style='height: ");
    p := p + "' style='height: ";
    NoBraceInConcat(p, size.0);
    p := p + size.0;
    NoBraceInConcat(p, "px; width: ");
    p := p + "px; width: ";
    NoBraceInConcat(p, size.1);
    p := p + size.1;
    NoBraceInConcat(p, "px; vertical-align: middle' />");
  }

  lemma IconPiecesBraceFree(a: Assets, i: nat)
    requires BraceFree(a) && i < 9
    ensures '{' !in IconNames[i] && '{' !in IconSource(a, i) && '{' !in IconSizes[i].0 && '{' !in IconSizes[i].1
  {
  }

  lemma BraceFreeImage(a: Assets, i: nat)
    requires BraceFree(a) && i < 9
    ensures '{' !in IconStage(a, i).replacement && IconStage(a, i).replacement[0] == '<'
  {
    IconPiecesBraceFree(a, i);
    ImageTagBraceFree(IconNames[i], IconSource(a, i), IconSizes[i]);
    ImageTagShape(IconNames[i], IconSource(a, i), IconSizes[i]);
  }

  lemma IconTokenAt(i: nat)
    requires i < 9
    ensures |IconTokens[i]| > 0 && IconTokens[i][0] == '{' && '<' !in IconTokens[i]
  {
  }

  /** Icon stages never create a `{`-token that contains no `<`, such as one an earlier stage removed. */
  lemma {:induction false} IconStagesKeepAbsent(a: Assets, q: string, from: nat, s: string)
    requires BraceFree(a) && from <= 9
    requires |q| > 0 && q[0] == '{' && '<' !in q && !Occurs(q, s)
    ensures !Occurs(q, ApplyAll(Stages(a)[3 + from..], s))
    decreases 9 - from
  {
    var rules := Stages(a)[3 + from..];
    if from < 9 {
      var stage := IconStage(a, from);
      assert rules[0] == stage;
      BraceFreeImage(a, from);
      LiteralStageKeepsAbsent(q, stage.token, stage.replacement, s);
      assert rules[1..] == Stages(a)[3 + from + 1..];
      IconStagesKeepAbsent(a, q, from + 1, Apply(stage, s));
    }
  }

  /** Each of the nine icon tokens is gone from the final text. */
  lemma IconTokensAbsentFromOutput(a: Assets, text: string, i: nat)
    requires BraceFree(a) && i < 9
    ensures !Occurs(IconTokens[i], HandleTextSubs(a, text))
  {
    var rules := Stages(a);
    var stage := IconStage(a, i);
    ApplyAllSplit(rules, 3 + i, text);
    var mid := ApplyAll(rules[..3 + i], text);
    assert rules[3 + i..][0] == stage;
    assert rules[3 + i..][1..] == rules[3 + i + 1..];
    BraceFreeImage(a, i);
    IconTokenAt(i);
    LiteralStageRemovesToken(stage.token, stage.replacement, mid);
    IconStagesKeepAbsent(a, IconTokens[i], i + 1, Apply(stage, mid));
  }

  lemma IconTokenClosed(i: nat)
    requires i < 9
    ensures Closed(IconTokens[i])
  {
  }

  lemma IconTokensDistinct(i: nat, j: nat)
    requires i < 9 && j < 9 && i != j
    ensures IconTokens[i] != IconTokens[j]
  {
  }

  /** The three markup patterns are `{NAME}` tokens, none of them an icon token. */
  lemma MarkupLeadsClosed(i: nat)
    requires i < 9
    ensures Closed("{BREAK}") && Closed("{BOLD}") && Closed("{ELITE}")
    ensures IconTokens[i] != "{BREAK}" && IconTokens[i] != "{BOLD}" && IconTokens[i] != "{ELITE}"
  {
  }

  /** Every stage before an icon's own stage is led by a different `{NAME}` token. */
  lemma LeadsBeforeIcon(a: Assets, i: nat)
    requires i < 9
    ensures forall k :: 0 <= k < 3 + i ==> Closed(Lead(Stages(a)[k])) && Lead(Stages(a)[k]) != IconTokens[i]
  {
    var rules := Stages(a);
    MarkupLeadsClosed(i);
    forall k | 0 <= k < 3 + i
      ensures Closed(Lead(rules[k])) && Lead(rules[k]) != IconTokens[i]
    {
      if k == 0 {
        assert Lead(rules[k]) == "{BREAK}";
      } else if k == 1 {
        assert Lead(rules[k]) == "{BOLD}";
      } else if k == 2 {
        assert Lead(rules[k]) == "{ELITE}";
      } else {
        assert rules[k] == IconStage(a, k - 3);
        IconTokenClosed(k - 3);
        IconTokensDistinct(k - 3, i);
      }
    }
  }

  /** A `{BREAK}` after text without `{` becomes `<br />`; the text before it is copied and the rest is processed alone. */
  lemma BreakBecomesLineBreak(a: Assets, p: string, q: string)
    requires '{' !in p
    ensures HandleTextSubs(a, p + "{BREAK}" + q) == p + "<br />" + HandleTextSubs(a, q)
  {
    var rules := Stages(a);
    LiteralReplacesToken("{BREAK}", "<br />", p, q);
    ApplyAllCopiesPrefix(rules[1..], p + "<br />", Apply(BreakStage, q));
  }

  /** From an icon's own stage on, its token becomes its image tag and the rest is processed alone. */
  lemma IconStageOnwards(a: Assets, i: nat, m: string)
    requires BraceFree(a) && i < 9
    ensures ApplyAll(Stages(a)[3 + i..], IconTokens[i] + m)
         == IconStage(a, i).replacement + ApplyAll(Stages(a)[3 + i..], m)
  {
    var after := Stages(a)[3 + i..];
    var stage := IconStage(a, i);
    var img := stage.replacement;
    assert after[0] == stage;
    LiteralReplacesToken(stage.token, img, [], m);
    assert [] + stage.token + m == IconTokens[i] + m;
    BraceFreeImage(a, i);
    ApplyAllCopiesPrefix(after[1..], img, Apply(stage, m));
  }

  /**
   * An icon token after text without `{` becomes its image tag; the text before it is copied
   * and the rest is processed alone.
   */
  lemma IconBecomesImage(a: Assets, i: nat, p: string, q: string)
    requires BraceFree(a) && i < 9 && '{' !in p
    ensures HandleTextSubs(a, p + IconTokens[i] + q) == p + IconStage(a, i).replacement + HandleTextSubs(a, q)
  {
    var rules := Stages(a);
    var t := IconTokens[i];
    assert p + t + q == p + (t + q);
    ApplyAllCopiesPrefix(rules, p, t + q);
    ApplyAllSplit(rules, 3 + i, t + q);
    ApplyAllSplit(rules, 3 + i, q);
    var before := rules[..3 + i];
    LeadsBeforeIcon(a, i);
    assert forall k :: 0 <= k < |before| ==> before[k] == rules[k];
    IconTokenClosed(i);
    TokenPassesStages(before, t, q);
    IconStageOnwards(a, i, ApplyAll(before, q));
  }

  /** A piece of text the chain handles one for one: a run without `{`, a `{BREAK}`, or an icon token. */
  datatype Piece = Plain(text: string) | LineBreak | Icon(index: nat)

  predicate ValidPiece(x: Piece) {
    match x
    case Plain(t) => '{' !in t
    case LineBreak => true
    case Icon(i) => i < 9
  }

  /** The text a piece stands for. */
  function Spell(x: Piece): string
    requires ValidPiece(x)
  {
    match x
    case Plain(t) => t
    case LineBreak => "{BREAK}"
    case Icon(i) => IconTokens[i]
  }

  /** What a piece should turn into: a run as it is, `<br />`, or the icon's image tag. */
  function Render(a: Assets, x: Piece): string
    requires ValidPiece(x)
  {
    match x
    case Plain(t) => t
    case LineBreak => "<br />"
    case Icon(i) => IconStage(a, i).replacement
  }

  function Spelled(ps: seq<Piece>): string
    requires forall k :: 0 <= k < |ps| ==> ValidPiece(ps[k])
  {
    if ps == [] then [] else Spell(ps[0]) + Spelled(ps[1..])
  }

  function Rendered(a: Assets, ps: seq<Piece>): string
    requires forall k :: 0 <= k < |ps| ==> ValidPiece(ps[k])
  {
    if ps == [] then [] else Render(a, ps[0]) + Rendered(a, ps[1..])
  }

  /** The chain turns a leading piece into what it should be and processes the rest alone. */
  lemma PieceRenders(a: Assets, x: Piece, rest: string)
    requires BraceFree(a) && ValidPiece(x)
    ensures HandleTextSubs(a, Spell(x) + rest) == Render(a, x) + HandleTextSubs(a, rest)
  {
    match x
    case Plain(t) =>
      HandleTextSubsCopiesPlainText(a, t, rest);
    case LineBreak =>
      var none: string := [];
      assert none + "{BREAK}" == "{BREAK}" && none + "<br />" == "<br />";
      BreakBecomesLineBreak(a, none, rest);
    case Icon(i) =>
      var none: string := [];
      var image := IconStage(a, i).replacement;
      assert none + IconTokens[i] == IconTokens[i] && none + image == image;
      IconBecomesImage(a, i, none, rest);
  }

  /**
   * On text made of plain runs, `{BREAK}`s and icon tokens, the chain replaces each token in
   * place and copies every run unchanged and in order.
   */
  lemma {:induction false} HandleTextSubsRendersPieces(a: Assets, ps: seq<Piece>)
    requires BraceFree(a)
    requires forall k :: 0 <= k < |ps| ==> ValidPiece(ps[k])
    ensures HandleTextSubs(a, Spelled(ps)) == Rendered(a, ps)
    decreases |ps|
  {
    if ps == [] {
      HandleTextSubsWithoutBrace(a, []);
    } else {
      HandleTextSubsRendersPieces(a, ps[1..]);
      PieceRenders(a, ps[0], Spelled(ps[1..]));
    }
  }

  lemma FirstThreeStages(a: Assets, text: string)
    ensures ApplyAll(Stages(a)[..3], text) == Apply(EliteStage(a), Apply(BoldStage, Apply(BreakStage, text)))
  {
    var first := Stages(a)[..3];
    var s1 := Apply(BreakStage, text);
    var s2 := Apply(BoldStage, s1);
    assert first[0] == BreakStage && first[1..] == [BoldStage, EliteStage(a)];
    assert ApplyAll(first, text) == ApplyAll(first[1..], s1);
    assert [BoldStage, EliteStage(a)][1..] == [EliteStage(a)];
    assert ApplyAll([BoldStage, EliteStage(a)], s1) == ApplyAll([EliteStage(a)], s2);
    assert [EliteStage(a)][1..] == [];
  }

  lemma EliteWrapperBraceFree(a: Assets)
    requires BraceFree(a)
    ensures '{' !in EliteStage(a).before && EliteStage(a).before[0] == '<'
  {
    NoBraceInConcat("<span style='color: ", a.eliteRed);
    NoBraceInConcat("<span style='color: " + a.eliteRed, "; font-weight: bold'>");
  }

  /** The BOLD and ELITE stages never create a `{`-token that contains no `<`. */
  lemma WrapStagesKeepAbsent(a: Assets, q: string, s: string)
    requires BraceFree(a) && |q| > 0 && q[0] == '{' && '<' !in q && !Occurs(q, s)
    ensures !Occurs(q, Apply(EliteStage(a), Apply(BoldStage, s)))
  {
    PairStageKeepsAbsent(q, BoldStage, s);
    EliteWrapperBraceFree(a);
    PairStageKeepsAbsent(q, EliteStage(a), Apply(BoldStage, s));
  }

  /** The BREAK, BOLD and ELITE stages leave no `{BREAK}` behind. */
  lemma FirstStagesRemoveBreak(a: Assets, text: string)
    requires BraceFree(a)
    ensures !Occurs("{BREAK}", ApplyAll(Stages(a)[..3], text))
  {
    FirstThreeStages(a, text);
    BreakStageRemovesBreak(text);
    WrapStagesKeepAbsent(a, "{BREAK}", Apply(BreakStage, text));
  }

  /** No `{BREAK}` is left in the final text: no later stage can bring one back. */
  lemma BreakAbsentFromOutput(a: Assets, text: string)
    requires BraceFree(a)
    ensures !Occurs("{BREAK}", HandleTextSubs(a, text))
  {
    var rules := Stages(a);
    ApplyAllSplit(rules, 3, text);
    FirstStagesRemoveBreak(a, text);
    assert rules[3..] == Stages(a)[3 + 0..];
    IconStagesKeepAbsent(a, "{BREAK}", 0, ApplyAll(rules[..3], text));
  }

  function UpperChar(c: char): char {
    if 'a' <= c <= 'z' then (c as int - 32) as char else c
  }

  /** The token is `{`, the alt text in capitals, then `}`. */
  predicate IsUpperToken(token: string, name: string) {
    && |token| == |name| + 2 && token[0] == '{' && token[|name| + 1] == '}'
    && forall k :: 0 <= k < |name| ==> token[k + 1] == UpperChar(name[k])
  }

  lemma IconTokenIsUpperName(i: nat)
    requires i < 9
    ensures IsUpperToken(IconTokens[i], IconNames[i])
  {
  }

  /** `{BOLD}` pairs with the nearest `{END}` on its line and wraps the text between them. */
  lemma BoldWrapsNearestEnd(c: string, rest: string)
    requires NoLineTerminator(c) && !Occurs("{END}", c + "{END")
    ensures Apply(BoldStage, "{BOLD}" + c + "{END}" + rest)
         == "<span style='font-weight: bold'>" + c + "</span>" + Apply(BoldStage, rest)
  {
    assert "{END}"[..|"{END}"| - 1] == "{END";
    PairWrapsNearestClose("{BOLD}", "{END}", "<span style='font-weight: bold'>", "</span>", c, rest);
  }

  /** `{ELITE}` pairs the same way and wraps the text in a bold span coloured `ELITE_RED`. */
  lemma EliteWrapsNearestEnd(a: Assets, c: string, rest: string)
    requires NoLineTerminator(c) && !Occurs("{END}", c + "{END")
    ensures Apply(EliteStage(a), "{ELITE}" + c + "{END}" + rest)
         == "<span style='color: " + a.eliteRed + "; font-weight: bold'>" + c + "</span>" + Apply(EliteStage(a), rest)
  {
    assert "{END}"[..|"{END}"| - 1] == "{END";
    PairWrapsNearestClose("{ELITE}", "{END}", "<span style='color: " + a.eliteRed + "; font-weight: bold'>", "</span>", c, rest);
  }

  /** A `{BOLD}` whose line holds no `{END}` stays as literal text. */
  lemma BoldWithoutEndOnLine(c: string, lt: char, rest: string)
    requires IsLineTerminator(lt) && !Occurs("{END}", c)
    ensures Apply(BoldStage, "{BOLD}" + c + [lt] + rest) == "{BOLD}" + Apply(BoldStage, c + [lt] + rest)
  {
    PairStopsAtLineEnd(BoldStage, c, lt, rest);
  }

  /** Each icon token is its image's `alt` text in capitals, between braces. */
  lemma IconTokenNamesItsImage(a: Assets, i: nat)
    requires i < 9
    ensures IsUpperToken(IconStage(a, i).token, IconNames[i])
    ensures IconStage(a, i).replacement[..10] == "<img alt=\""
    ensures IconStage(a, i).replacement[10..10 + |IconNames[i]| + 1] == IconNames[i] + "\""
  {
    IconTokenIsUpperName(i);
    ImageTagShape(IconNames[i], IconSource(a, i), IconSizes[i]);
  }
}
