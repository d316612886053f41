/** The placeholder renderer of the delivery function: a fixed chain of
    seven case-insensitive replace-alls, {player}, {IGN}, {username} by the
    recipient, {quantity}, {AMOUNT} by the quantity, {product},
    {product_name} by the product name. Each replace-all runs on the output
    of the previous one. */
module Placeholders {
  import opened Common
  import opened Text

  /** s.replace(/pat/gi, rep) for a pattern with no special characters:
      scanning left to right, every occurrence of `pat` (up to ASCII case)
      that does not overlap an earlier one is replaced by `rep`. */
  function ReplaceAll(s: string, pat: string, rep: string): string
    requires |pat| > 0
    decreases |s|
  {
    if |s| < |pat| then s
    else if MatchesAt(s, pat, 0) then rep + ReplaceAll(s[|pat|..], pat, rep)
    else [s[0]] + ReplaceAll(s[1..], pat, rep)
  }

  const PlayerTokens: seq<string> := ["{player}", "{IGN}", "{username}"]
  const QuantityTokens: seq<string> := ["{quantity}", "{AMOUNT}"]
  const ProductTokens: seq<string> := ["{product}", "{product_name}"]

  /** `order.products?.name || ""`. */
  function ProductText(productName: Option<string>): string
  {
    if productName.Some? then productName.value else ""
  }

  /** The processed command text for one delivery command. */
  function Render(template: string, recipient: string, quantity: int, productName: Option<string>): string
  {
    var q := DecimalString(quantity);
    var p := ProductText(productName);
    var s1 := ReplaceAll(template, "{player}", recipient);
    var s2 := ReplaceAll(s1, "{IGN}", recipient);
    var s3 := ReplaceAll(s2, "{username}", recipient);
    var s4 := ReplaceAll(s3, "{quantity}", q);
    var s5 := ReplaceAll(s4, "{AMOUNT}", q);
    var s6 := ReplaceAll(s5, "{product}", p);
    ReplaceAll(s6, "{product_name}", p)
  }

  // ------------------------------------------------ text without tokens

  /** processCommand with the order's recipient, quantity and product name filled in. */
  function Renderer(recipient: string, quantity: int, productName: Option<string>): string -> string
  {
    t => Render(t, recipient, quantity, productName)
  }

  lemma {:induction false} ReplaceAllAbsent(s: string, pat: string, rep: string)
    requires |pat| > 0 && !OccursIgnoringCase(s, pat)
    ensures ReplaceAll(s, pat, rep) == s
    decreases |s|
  {
    if |s| >= |pat| {
      assert !MatchesAt(s, pat, 0);
      assert !OccursIgnoringCase(s[1..], pat) by {
        forall i | 0 <= i <= |s[1..]| - |pat| ensures !MatchesAt(s[1..], pat, i) {
          assert !MatchesAt(s, pat, i + 1);
          assert s[1..][i..i + |pat|] == s[i + 1..i + 1 + |pat|];
        }
      }
      ReplaceAllAbsent(s[1..], pat, rep);
    }
  }

  lemma NoTokenSpelled(template: string)
    requires forall t :: t in PlayerTokens + QuantityTokens + ProductTokens ==> !OccursIgnoringCase(template, t)
    ensures !OccursIgnoringCase(template, "{player}") && !OccursIgnoringCase(template, "{IGN}")
    ensures !OccursIgnoringCase(template, "{username}") && !OccursIgnoringCase(template, "{quantity}")
    ensures !OccursIgnoringCase(template, "{AMOUNT}") && !OccursIgnoringCase(template, "{product}")
    ensures !OccursIgnoringCase(template, "{product_name}")
  {
    assert PlayerTokens + QuantityTokens + ProductTokens ==
      ["{player}", "{IGN}", "{username}", "{quantity}", "{AMOUNT}", "{product}", "{product_name}"];
  }

  /** A template in which none of the seven tokens occurs (in any case) is sent as it is. */
  lemma RenderWithoutTokens(template: string, recipient: string, quantity: int, productName: Option<string>)
    requires forall t :: t in PlayerTokens + QuantityTokens + ProductTokens ==> !OccursIgnoringCase(template, t)
    ensures Render(template, recipient, quantity, productName) == template
  {
    var q := DecimalString(quantity);
    var p := ProductText(productName);
    NoTokenSpelled(template);
    ReplaceAllAbsent(template, "{player}", recipient);
    ReplaceAllAbsent(template, "{IGN}", recipient);
    ReplaceAllAbsent(template, "{username}", recipient);
    ReplaceAllAbsent(template, "{quantity}", q);
    ReplaceAllAbsent(template, "{AMOUNT}", q);
    ReplaceAllAbsent(template, "{product}", p);
    ReplaceAllAbsent(template, "{product_name}", p);
  }

  // ------------------------------------------ templates as text and tokens

  /** Text that holds no opening brace, so no placeholder can start in it. */
  predicate Plain(s: string)
  {
    forall i :: 0 <= i < |s| ==> s[i] != '{'
  }

  /** A brace-delimited word, like {player} or {FOO}. */
  predicate IsToken(t: string)
  {
    && |t| >= 2 && t[0] == '{' && t[|t| - 1] == '}'
    && forall i :: 0 < i < |t| - 1 ==> t[i] != '{' && t[i] != '}'
  }

  /** An opening brace that no closing brace follows before the next brace,
      as in the `{display:` of `sword{display:{Name:"VIP"}}`. */
  predicate IsOpen(t: string)
  {
    |t| >= 1 && t[0] == '{' && forall i :: 0 < i < |t| ==> t[i] != '{' && t[i] != '}'
  }

  /** A template seen as a sequence of plain text, tokens and unclosed braces. */
  datatype Piece = Text(s: string) | Token(t: string) | Open(t: string)

  predicate PieceOk(x: Piece)
  {
    match x
    case Text(s) => Plain(s)
    case Token(t) => IsToken(t)
    case Open(t) => IsOpen(t)
  }

  /** Every piece is of its kind, and an unclosed brace runs up to the next
      brace: the piece after it starts with '{'. */
  predicate WellFormed(ps: seq<Piece>)
  {
    && (forall k :: 0 <= k < |ps| ==> PieceOk(ps[k]))
    && (forall k :: 0 <= k < |ps| - 1 && ps[k].Open? ==> !ps[k + 1].Text?)
  }

  function PieceText(x: Piece): string
  {
    match x
    case Text(s) => s
    case Token(t) => t
    case Open(t) => t
  }

  function Join(ps: seq<Piece>): string
  {
    if ps == [] then "" else PieceText(ps[0]) + Join(ps[1..])
  }

  lemma JoinCons(x: Piece, rest: seq<Piece>)
    ensures Join([x] + rest) == PieceText(x) + Join(rest)
  {
    assert ([x] + rest)[1..] == rest;
  }

  /** Joining turns concatenated pieces into concatenated text. */
  lemma {:induction false} JoinAppend(ps: seq<Piece>, qs: seq<Piece>)
    ensures Join(ps + qs) == Join(ps) + Join(qs)
    decreases |ps|
  {
    if ps == [] {
      assert ps + qs == qs;
    } else {
      assert (ps + qs)[1..] == ps[1..] + qs;
      JoinAppend(ps[1..], qs);
    }
  }

  lemma JoinThree(x: Piece, y: Piece, z: Piece)
    ensures Join([x, y, z]) == PieceText(x) + PieceText(y) + PieceText(z)
  {
    JoinCons(z, []);
    JoinCons(y, [z]);
    JoinCons(x, [y, z]);
  }

  /** A token equal to `pat` up to case becomes the text `rep`. */
  function SubstPiece(x: Piece, pat: string, rep: string): Piece
  {
    if x.Token? && SameIgnoringCase(x.t, pat) then Text(rep) else x
  }

  /** One replace-all on the pieces. */
  function Subst(ps: seq<Piece>, pat: string, rep: string): (r: seq<Piece>)
    ensures |r| == |ps|
    ensures forall k :: 0 <= k < |ps| ==> r[k] == SubstPiece(ps[k], pat, rep)
  {
    if ps == [] then [] else [SubstPiece(ps[0], pat, rep)] + Subst(ps[1..], pat, rep)
  }

  lemma LowerBrace(c: char)
    ensures ToLowerChar(c) == '{' <==> c == '{'
    ensures ToLowerChar(c) == '}' <==> c == '}'
  {
  }

  lemma {:induction false} ReplaceAllAfterPlain(a: string, b: string, pat: string, rep: string)
    requires |pat| > 0 && pat[0] == '{' && Plain(a)
    ensures ReplaceAll(a + b, pat, rep) == a + ReplaceAll(b, pat, rep)
    decreases |a|
  {
    if a != [] {
      var s := a + b;
      assert s[0] == a[0];
      LowerBrace(a[0]);
      if |s| >= |pat| {
        assert !MatchesAt(s, pat, 0) by {
          assert ToLowerChar(s[0]) != ToLowerChar(pat[0]);
        }
        assert ReplaceAll(s, pat, rep) == [a[0]] + ReplaceAll(s[1..], pat, rep);
        assert s[1..] == a[1..] + b;
        ReplaceAllAfterPlain(a[1..], b, pat, rep);
        Regroup(a[0], a[1..], ReplaceAll(b, pat, rep), a);
      } else {
        assert |b| < |pat|;
        ReplaceAllShort(b, pat, rep);
      }
    } else {
      assert a + b == b;
    }
  }

  lemma Regroup(x: char, u: string, v: string, w: string)
    requires w == [x] + u
    ensures [x] + (u + v) == w + v
  {
  }

  lemma ReplaceAllShort(s: string, pat: string, rep: string)
    requires 0 < |pat| && |s| < |pat|
    ensures ReplaceAll(s, pat, rep) == s
  {
  }

  /** A token different from the pattern (up to case) does not match at the start. */
  lemma TokenMismatch(t: string, b: string, pat: string)
    requires IsToken(t) && IsToken(pat) && !SameIgnoringCase(t, pat)
    ensures !MatchesAt(t + b, pat, 0)
  {
    var s := t + b;
    if |s| >= |pat| {
      if |t| == |pat| {
        assert s[..|pat|] == t;
      } else if |t| < |pat| {
        var k := |t| - 1;
        assert s[..|pat|][k] == '}' && pat[k] != '}';
        LowerBrace(pat[k]);
      } else {
        var k := |pat| - 1;
        assert s[..|pat|][k] == t[k] && t[k] != '}' && pat[k] == '}';
        LowerBrace(t[k]);
      }
    }
  }

  lemma ReplaceAllMatchedHead(t: string, b: string, pat: string, rep: string)
    requires |pat| > 0 && SameIgnoringCase(t, pat)
    ensures ReplaceAll(t + b, pat, rep) == rep + ReplaceAll(b, pat, rep)
  {
    var s := t + b;
    assert s[..|pat|] == t;
    assert MatchesAt(s, pat, 0);
    assert s[|pat|..] == b;
  }

  /** A token in front of the rest of a template: it is replaced when it
      equals the pattern up to case, and left alone otherwise. */
  lemma ReplaceAllAfterToken(t: string, b: string, pat: string, rep: string)
    requires IsToken(t) && IsToken(pat)
    ensures ReplaceAll(t + b, pat, rep) ==
      (if SameIgnoringCase(t, pat) then rep else t) + ReplaceAll(b, pat, rep)
  {
    if SameIgnoringCase(t, pat) {
      ReplaceAllMatchedHead(t, b, pat, rep);
    } else {
      ReplaceAllMismatchedHead(t, b, pat, rep);
    }
  }

  lemma ReplaceAllMismatchedHead(t: string, b: string, pat: string, rep: string)
    requires IsToken(t) && IsToken(pat) && !SameIgnoringCase(t, pat)
    ensures ReplaceAll(t + b, pat, rep) == t + ReplaceAll(b, pat, rep)
  {
    if |t + b| >= |pat| {
      TokenMismatch(t, b, pat);
    }
    assert Plain(t[1..]) by {
      forall i | 0 <= i < |t[1..]| ensures t[1..][i] != '{' {
        assert t[1..][i] == t[i + 1];
      }
    }
    ReplaceAllBraceHead(t, b, pat, rep);
  }

  /** Text that starts with a '{' and holds no other: when the pattern does
      not match at its start, no match can start inside it either. */
  lemma ReplaceAllBraceHead(t: string, b: string, pat: string, rep: string)
    requires |pat| > 0 && pat[0] == '{' && |t| > 0 && Plain(t[1..])
    requires |t + b| >= |pat| ==> !MatchesAt(t + b, pat, 0)
    ensures ReplaceAll(t + b, pat, rep) == t + ReplaceAll(b, pat, rep)
  {
    var s := t + b;
    if |s| < |pat| {
      ReplaceAllShort(s, pat, rep);
      ReplaceAllShort(b, pat, rep);
    } else {
      assert ReplaceAll(s, pat, rep) == [s[0]] + ReplaceAll(s[1..], pat, rep);
      assert s[1..] == t[1..] + b;
      ReplaceAllAfterPlain(t[1..], b, pat, rep);
      Regroup(s[0], t[1..], ReplaceAll(b, pat, rep), t);
    }
  }

  /** `t` spells, up to case, the start of `pat`. */
  predicate StartsPattern(t: string, pat: string)
  {
    |t| <= |pat| && SameIgnoringCase(t, pat[..|t|])
  }

  /** A token cannot match at an unclosed brace: either the brace's text
      runs out of room before the token's '}', or the next brace comes
      first, or the brace's text already differs from the token. */
  lemma OpenMismatch(t: string, b: string, pat: string)
    requires IsOpen(t) && IsToken(pat)
    requires b == [] || b[0] == '{' || !StartsPattern(t, pat)
    ensures !MatchesAt(t + b, pat, 0)
  {
    var s := t + b;
    if |s| >= |pat| {
      if |pat| <= |t| {
        var k := |pat| - 1;
        assert s[..|pat|][k] == t[k] && t[k] != '}' && pat[k] == '}';
        LowerBrace(t[k]);
      } else if b[0] == '{' {
        var k := |t|;
        assert s[..|pat|][k] == b[0] == '{' && pat[k] != '{';
        LowerBrace(pat[k]);
      } else {
        var i :| 0 <= i < |t| && ToLowerChar(t[i]) != ToLowerChar(pat[..|t|][i]);
        assert s[..|pat|][i] == t[i] && pat[..|t|][i] == pat[i];
      }
    }
  }

  /** An unclosed brace in front of the rest of a template is left alone
      when the rest starts with a brace, or when the brace's text does not
      spell the start of the pattern. */
  lemma ReplaceAllAfterOpen(t: string, b: string, pat: string, rep: string)
    requires IsOpen(t) && IsToken(pat)
    requires b == [] || b[0] == '{' || !StartsPattern(t, pat)
    ensures ReplaceAll(t + b, pat, rep) == t + ReplaceAll(b, pat, rep)
  {
    OpenMismatch(t, b, pat);
    assert Plain(t[1..]) by {
      forall i | 0 <= i < |t[1..]| ensures t[1..][i] != '{' {
        assert t[1..][i] == t[i + 1];
      }
    }
    ReplaceAllBraceHead(t, b, pat, rep);
  }

  /** Pieces a replace-all of `pat` can be read from: every piece is of its
      kind, and an unclosed brace followed by text does not spell the start
      of `pat`. Well-formed pieces are such pieces for every pattern. */
  predicate SplitFor(ps: seq<Piece>, pat: string)
  {
    && (forall k :: 0 <= k < |ps| ==> PieceOk(ps[k]))
    && (forall k :: 0 <= k < |ps| - 1 && ps[k].Open? && ps[k + 1].Text? ==> !StartsPattern(ps[k].t, pat))
  }

  lemma WellFormedSplit(ps: seq<Piece>, pat: string)
    requires WellFormed(ps)
    ensures SplitFor(ps, pat)
  {
  }

  lemma SplitForTail(ps: seq<Piece>, pat: string)
    requires SplitFor(ps, pat) && |ps| > 0
    ensures SplitFor(ps[1..], pat) && PieceOk(ps[0])
    ensures ps[0].Open? && |ps| > 1 && ps[1].Text? ==> !StartsPattern(ps[0].t, pat)
  {
    var rest := ps[1..];
    forall k | 0 <= k < |rest| ensures PieceOk(rest[k]) {
      assert rest[k] == ps[k + 1];
    }
    forall k | 0 <= k < |rest| - 1 && rest[k].Open? && rest[k + 1].Text?
      ensures !StartsPattern(rest[k].t, pat)
    {
      assert rest[k] == ps[k + 1] && rest[k + 1] == ps[k + 2];
    }
  }

  /** The text of pieces that start with a brace piece starts with '{'. */
  lemma JoinStartsWithBrace(ps: seq<Piece>)
    requires |ps| > 0 && PieceOk(ps[0]) && !ps[0].Text?
    ensures |Join(ps)| > 0 && Join(ps)[0] == '{'
  {
    JoinCons(ps[0], ps[1..]);
    assert ps == [ps[0]] + ps[1..];
  }

  /** Replace-all on a template split into pieces replaces exactly the
      tokens that equal the pattern up to case. */
  lemma {:induction false} ReplaceAllPieces(ps: seq<Piece>, pat: string, rep: string)
    requires SplitFor(ps, pat) && IsToken(pat)
    ensures ReplaceAll(Join(ps), pat, rep) == Join(Subst(ps, pat, rep))
    decreases |ps|
  {
    if ps == [] {
      ReplaceAllShort("", pat, rep);
    } else {
      var rest := ps[1..];
      SplitForTail(ps, pat);
      ReplaceAllPieces(rest, pat, rep);
      assert Subst(ps, pat, rep)[1..] == Subst(rest, pat, rep);
      match ps[0]
      case Text(a) =>
        ReplaceAllAfterPlain(a, Join(rest), pat, rep);
      case Token(t) =>
        ReplaceAllAfterToken(t, Join(rest), pat, rep);
      case Open(t) =>
        if rest != [] && !rest[0].Text? {
          JoinStartsWithBrace(rest);
        }
        ReplaceAllAfterOpen(t, Join(rest), pat, rep);
    }
  }

  /** The seven placeholders of the chain. */
  predicate Placeholder(pat: string)
  {
    || pat == "{player}" || pat == "{IGN}" || pat == "{username}"
    || pat == "{quantity}" || pat == "{AMOUNT}"
    || pat == "{product}" || pat == "{product_name}"
  }

  /** An unclosed brace at which no placeholder can begin: its text does not
      spell, up to case, the start of any of the seven. */
  predicate SafeOpen(t: string)
  {
    && !StartsPattern(t, "{player}") && !StartsPattern(t, "{IGN}") && !StartsPattern(t, "{username}")
    && !StartsPattern(t, "{quantity}") && !StartsPattern(t, "{AMOUNT}")
    && !StartsPattern(t, "{product}") && !StartsPattern(t, "{product_name}")
  }

  /** An unclosed brace whose second character is not, up to case, the
      second character of a placeholder (p, i, u, q or a) is safe, as are
      `{"text":` and `{display:`. */
  lemma SafeOpenBySecond(t: string)
    requires |t| >= 2
    requires var c := ToLowerChar(t[1]); c != 'p' && c != 'i' && c != 'u' && c != 'q' && c != 'a'
    ensures SafeOpen(t)
  {
    assert ToLowerChar("{player}"[1]) == 'p' && ToLowerChar("{IGN}"[1]) == 'i';
    assert ToLowerChar("{username}"[1]) == 'u' && ToLowerChar("{quantity}"[1]) == 'q';
    assert ToLowerChar("{AMOUNT}"[1]) == 'a' && ToLowerChar("{product}"[1]) == 'p';
    assert ToLowerChar("{product_name}"[1]) == 'p';
  }

  /** The pieces as the chain leaves them: every piece is of its kind, and
      an unclosed brace followed by text is safe. Substituting a value for
      a placeholder puts text where a token was, so this is what stays true
      from one step of the chain to the next. */
  predicate Settled(ps: seq<Piece>)
  {
    && (forall k :: 0 <= k < |ps| ==> PieceOk(ps[k]))
    && (forall k :: 0 <= k < |ps| - 1 && ps[k].Open? && ps[k + 1].Text? ==> SafeOpen(ps[k].t))
  }

  lemma WellFormedSettled(ps: seq<Piece>)
    requires WellFormed(ps)
    ensures Settled(ps)
  {
  }

  lemma SettledSplit(ps: seq<Piece>, pat: string)
    requires Settled(ps) && Placeholder(pat)
    ensures SplitFor(ps, pat)
  {
  }

  /** An unclosed brace directly followed by a token equal to `pat` up to
      case is safe. */
  predicate GuardedAgainst(ps: seq<Piece>, pat: string)
  {
    forall k :: 0 <= k < |ps| - 1 && ps[k].Open? && ps[k + 1].Token? && SameIgnoringCase(ps[k + 1].t, pat) ==>
      SafeOpen(ps[k].t)
  }

  /** Every unclosed brace directly followed by one of the seven
      placeholders is safe. Where one is not, as in "{IG{player}}",
      replacing the placeholder glues its value onto the brace, and a later
      step of the chain can match across the join. */
  predicate Guarded(ps: seq<Piece>)
  {
    && GuardedAgainst(ps, "{player}") && GuardedAgainst(ps, "{IGN}") && GuardedAgainst(ps, "{username}")
    && GuardedAgainst(ps, "{quantity}") && GuardedAgainst(ps, "{AMOUNT}")
    && GuardedAgainst(ps, "{product}") && GuardedAgainst(ps, "{product_name}")
  }

  /** A replace of a guarded placeholder keeps the pieces settled. */
  lemma SubstSettled(ps: seq<Piece>, pat: string, rep: string)
    requires Settled(ps) && Plain(rep) && GuardedAgainst(ps, pat)
    ensures Settled(Subst(ps, pat, rep))
  {
    var r := Subst(ps, pat, rep);
    forall k | 0 <= k < |r| - 1 && r[k].Open? && r[k + 1].Text? ensures SafeOpen(r[k].t) {
      assert r[k] == ps[k];
    }
  }

  /** A replace only turns tokens into text, so it keeps the guard. */
  lemma SubstGuarded(ps: seq<Piece>, pat: string, rep: string)
    requires Guarded(ps)
    ensures Guarded(Subst(ps, pat, rep))
  {
    SubstKeepsGuard(ps, pat, rep, "{player}");
    SubstKeepsGuard(ps, pat, rep, "{IGN}");
    SubstKeepsGuard(ps, pat, rep, "{username}");
    SubstKeepsGuard(ps, pat, rep, "{quantity}");
    SubstKeepsGuard(ps, pat, rep, "{AMOUNT}");
    SubstKeepsGuard(ps, pat, rep, "{product}");
    SubstKeepsGuard(ps, pat, rep, "{product_name}");
  }

  lemma SubstKeepsGuard(ps: seq<Piece>, pat: string, rep: string, g: string)
    requires GuardedAgainst(ps, g)
    ensures GuardedAgainst(Subst(ps, pat, rep), g)
  {
    var r := Subst(ps, pat, rep);
    forall k | 0 <= k < |r| - 1 && r[k].Open? && r[k + 1].Token? && SameIgnoringCase(r[k + 1].t, g)
      ensures SafeOpen(r[k].t)
    {
      assert r[k] == ps[k] && r[k + 1] == ps[k + 1];
    }
  }

  /** What a piece of the template becomes: a token is matched against the
      seven spellings in the order of the chain, up to case. */
  function Resolve(p: Piece, recipient: string, quantity: int, productName: Option<string>): Piece
  {
    if !p.Token? then p
    else if exists k :: 0 <= k < |PlayerTokens| && SameIgnoringCase(p.t, PlayerTokens[k]) then Text(recipient)
    else if exists k :: 0 <= k < |QuantityTokens| && SameIgnoringCase(p.t, QuantityTokens[k]) then Text(DecimalString(quantity))
    else if exists k :: 0 <= k < |ProductTokens| && SameIgnoringCase(p.t, ProductTokens[k]) then Text(ProductText(productName))
    else p
  }

  lemma DecimalPlain(n: int)
    ensures Plain(DecimalString(n))
  {
    var s := DecimalString(n);
    forall i | 0 <= i < |s| ensures s[i] != '{' {
      assert IsDigit(s[i]) || s[i] == '-';
    }
  }

  /** The seven replace-alls of the chain, on pieces. */
  function SubstChain(ps: seq<Piece>, recipient: string, q: string, p: string): seq<Piece>
  {
    Subst(Subst(Subst(Subst(Subst(Subst(Subst(ps,
      "{player}", recipient), "{IGN}", recipient), "{username}", recipient),
      "{quantity}", q), "{AMOUNT}", q), "{product}", p), "{product_name}", p)
  }

  lemma RenderJoin(ps: seq<Piece>, recipient: string, quantity: int, productName: Option<string>)
    requires Settled(ps) && Guarded(ps) && Plain(recipient) && Plain(ProductText(productName))
    ensures Render(Join(ps), recipient, quantity, productName) ==
      Join(SubstChain(ps, recipient, DecimalString(quantity), ProductText(productName)))
  {
    var q := DecimalString(quantity);
    var p := ProductText(productName);
    DecimalPlain(quantity);
    assert IsToken("{player}") && IsToken("{IGN}") && IsToken("{username}") && IsToken("{quantity}");
    assert IsToken("{AMOUNT}") && IsToken("{product}") && IsToken("{product_name}");
    var p1 := Subst(ps, "{player}", recipient);
    SubstStep(ps, "{player}", recipient);
    var p2 := Subst(p1, "{IGN}", recipient);
    SubstStep(p1, "{IGN}", recipient);
    var p3 := Subst(p2, "{username}", recipient);
    SubstStep(p2, "{username}", recipient);
    var p4 := Subst(p3, "{quantity}", q);
    SubstStep(p3, "{quantity}", q);
    var p5 := Subst(p4, "{AMOUNT}", q);
    SubstStep(p4, "{AMOUNT}", q);
    var p6 := Subst(p5, "{product}", p);
    SubstStep(p5, "{product}", p);
    SubstStep(p6, "{product_name}", p);
  }

  /** One step of the chain: the replace-all is the substitution on the
      pieces, and the pieces stay settled and guarded. */
  lemma SubstStep(ps: seq<Piece>, pat: string, rep: string)
    requires Settled(ps) && Guarded(ps) && Placeholder(pat) && Plain(rep)
    ensures ReplaceAll(Join(ps), pat, rep) == Join(Subst(ps, pat, rep))
    ensures Settled(Subst(ps, pat, rep)) && Guarded(Subst(ps, pat, rep))
  {
    assert IsToken(pat) && GuardedAgainst(ps, pat);
    SettledSplit(ps, pat);
    ReplaceAllPieces(ps, pat, rep);
    SubstSettled(ps, pat, rep);
    SubstGuarded(ps, pat, rep);
  }

  /** The seven replace-alls of the chain, on one piece. */
  function ChainPiece(x: Piece, recipient: string, q: string, p: string): Piece
  {
    SubstPiece(SubstPiece(SubstPiece(SubstPiece(SubstPiece(SubstPiece(SubstPiece(x,
      "{player}", recipient), "{IGN}", recipient), "{username}", recipient),
      "{quantity}", q), "{AMOUNT}", q), "{product}", p), "{product_name}", p)
  }

  /** The chain works piece by piece. */
  lemma SubstChainPointwise(ps: seq<Piece>, recipient: string, q: string, p: string)
    ensures |SubstChain(ps, recipient, q, p)| == |ps|
    ensures forall k :: 0 <= k < |ps| ==> SubstChain(ps, recipient, q, p)[k] == ChainPiece(ps[k], recipient, q, p)
  {
  }

  /** The three spelling lists, written out. */
  lemma SpellingLists(t: string)
    ensures (exists k :: 0 <= k < |PlayerTokens| && SameIgnoringCase(t, PlayerTokens[k])) <==>
      SameIgnoringCase(t, "{player}") || SameIgnoringCase(t, "{IGN}") || SameIgnoringCase(t, "{username}")
    ensures (exists k :: 0 <= k < |QuantityTokens| && SameIgnoringCase(t, QuantityTokens[k])) <==>
      SameIgnoringCase(t, "{quantity}") || SameIgnoringCase(t, "{AMOUNT}")
    ensures (exists k :: 0 <= k < |ProductTokens| && SameIgnoringCase(t, ProductTokens[k])) <==>
      SameIgnoringCase(t, "{product}") || SameIgnoringCase(t, "{product_name}")
  {
    assert PlayerTokens[0] == "{player}" && PlayerTokens[1] == "{IGN}" && PlayerTokens[2] == "{username}";
    assert QuantityTokens[0] == "{quantity}" && QuantityTokens[1] == "{AMOUNT}";
    assert ProductTokens[0] == "{product}" && ProductTokens[1] == "{product_name}";
    if exists k :: 0 <= k < |PlayerTokens| && SameIgnoringCase(t, PlayerTokens[k]) {
      var k :| 0 <= k < |PlayerTokens| && SameIgnoringCase(t, PlayerTokens[k]);
      assert k == 0 || k == 1 || k == 2;
    }
    if exists k :: 0 <= k < |QuantityTokens| && SameIgnoringCase(t, QuantityTokens[k]) {
      var k :| 0 <= k < |QuantityTokens| && SameIgnoringCase(t, QuantityTokens[k]);
      assert k == 0 || k == 1;
    }
    if exists k :: 0 <= k < |ProductTokens| && SameIgnoringCase(t, ProductTokens[k]) {
      var k :| 0 <= k < |ProductTokens| && SameIgnoringCase(t, ProductTokens[k]);
      assert k == 0 || k == 1;
    }
  }

  /** Resolve agrees with the chain of seven substitutions on one piece. */
  lemma ResolveChain(x: Piece, recipient: string, quantity: int, productName: Option<string>)
    ensures ChainPiece(x, recipient, DecimalString(quantity), ProductText(productName))
      == Resolve(x, recipient, quantity, productName)
  {
    if x.Token? {
      SpellingLists(x.t);
    }
  }

  /** The pieces of a template, each resolved. */
  function ResolveAll(ps: seq<Piece>, recipient: string, quantity: int, productName: Option<string>): (r: seq<Piece>)
    ensures |r| == |ps|
    ensures forall k :: 0 <= k < |ps| ==> r[k] == Resolve(ps[k], recipient, quantity, productName)
  {
    if ps == [] then []
    else [Resolve(ps[0], recipient, quantity, productName)] + ResolveAll(ps[1..], recipient, quantity, productName)
  }

  /** The renderer's meaning: when the recipient and product name contain no
      opening brace, rendering a template made of plain text and tokens puts
      the recipient in place of every {player}, {IGN} and {username}, the
      quantity in place of every {quantity} and {AMOUNT}, the product name in
      place of every {product} and {product_name} (each up to case), and
      leaves every other token as written. */
  lemma RenderPieces(ps: seq<Piece>, recipient: string, quantity: int, productName: Option<string>)
    requires WellFormed(ps) && Guarded(ps) && Plain(recipient) && Plain(ProductText(productName))
    ensures Render(Join(ps), recipient, quantity, productName) ==
      Join(ResolveAll(ps, recipient, quantity, productName))
  {
    var q := DecimalString(quantity);
    var p := ProductText(productName);
    WellFormedSettled(ps);
    RenderJoin(ps, recipient, quantity, productName);
    var chained := SubstChain(ps, recipient, q, p);
    var resolved := ResolveAll(ps, recipient, quantity, productName);
    SubstChainPointwise(ps, recipient, q, p);
    assert chained == resolved by {
      forall k | 0 <= k < |ps| ensures chained[k] == resolved[k] {
        ResolveChain(ps[k], recipient, quantity, productName);
      }
    }
  }

  // ------------------------------------------------- any template as pieces

  /** The length of the longest prefix of `s` holding no opening brace. */
  function UpToBrace(s: string): (n: nat)
    ensures n <= |s| && (n < |s| ==> s[n] == '{')
    ensures forall i :: 0 <= i < n ==> s[i] != '{'
    decreases |s|
  {
    if s == [] || s[0] == '{' then 0 else 1 + UpToBrace(s[1..])
  }

  /** The length of the longest prefix of `s` holding no brace of either kind. */
  function UpToAnyBrace(s: string): (n: nat)
    ensures n <= |s| && (n < |s| ==> s[n] == '{' || s[n] == '}')
    ensures forall i :: 0 <= i < n ==> s[i] != '{' && s[i] != '}'
    decreases |s|
  {
    if s == [] || s[0] == '{' || s[0] == '}' then 0 else 1 + UpToAnyBrace(s[1..])
  }

  /** The first piece of a non-empty template: plain text runs up to the
      next '{'; a '{' starts a token when a '}' comes before the next '{',
      and an unclosed brace otherwise. */
  function FirstPiece(s: string): (x: Piece)
    requires s != []
    ensures PieceOk(x) && 0 < |PieceText(x)| <= |s| && PieceText(x) == s[..|PieceText(x)|]
    ensures x.Text? <==> s[0] != '{'
    ensures x.Open? && |PieceText(x)| < |s| ==> s[|PieceText(x)|] == '{'
  {
    if s[0] != '{' then
      var n := UpToBrace(s);
      PlainPrefix(s, n);
      Text(s[..n])
    else
      var m := 1 + UpToAnyBrace(s[1..]);
      if m < |s| && s[m] == '}' then
        TokenPrefix(s, m);
        Token(s[..m + 1])
      else
        OpenPrefix(s, m);
        Open(s[..m])
  }

  /** Any template, split into pieces, first piece first. */
  function Parse(s: string): (r: seq<Piece>)
    ensures Join(r) == s && WellFormed(r)
    ensures |r| == 0 <==> |s| == 0
    ensures |s| > 0 ==> (r[0].Text? <==> s[0] != '{')
    decreases |s|
  {
    if s == [] then []
    else
      var x := FirstPiece(s);
      var k := |PieceText(x)|;
      var rest := Parse(s[k..]);
      ConsParsed(x, s, k, rest);
      [x] + rest
  }

  lemma PlainPrefix(s: string, n: nat)
    requires n == UpToBrace(s)
    ensures Plain(s[..n])
  {
  }

  lemma TokenPrefix(s: string, m: nat)
    requires |s| > 0 && s[0] == '{' && m == 1 + UpToAnyBrace(s[1..]) && m < |s| && s[m] == '}'
    ensures IsToken(s[..m + 1])
  {
    forall i | 0 < i < m ensures s[i] != '{' && s[i] != '}' {
      assert s[i] == s[1..][i - 1];
    }
  }

  lemma OpenPrefix(s: string, m: nat)
    requires |s| > 0 && s[0] == '{' && m == 1 + UpToAnyBrace(s[1..])
    requires !(m < |s| && s[m] == '}')
    ensures IsOpen(s[..m]) && (m < |s| ==> s[m] == '{')
  {
    forall i | 0 < i < m ensures s[i] != '{' && s[i] != '}' {
      assert s[i] == s[1..][i - 1];
    }
  }

  /** A piece spelling the first k characters, in front of the pieces of the rest. */
  lemma ConsParsed(x: Piece, s: string, k: nat, rest: seq<Piece>)
    requires 0 < k <= |s| && PieceText(x) == s[..k] && PieceOk(x)
    requires Join(rest) == s[k..] && WellFormed(rest)
    requires |rest| == 0 <==> k == |s|
    requires k < |s| ==> (rest[0].Text? <==> s[k] != '{')
    requires x.Open? && k < |s| ==> s[k] == '{'
    ensures Join([x] + rest) == s && WellFormed([x] + rest)
  {
    ConsJoin(x, s, k, rest);
    ConsWellFormed(x, rest);
  }

  lemma ConsJoin(x: Piece, s: string, k: nat, rest: seq<Piece>)
    requires k <= |s| && PieceText(x) == s[..k] && Join(rest) == s[k..]
    ensures Join([x] + rest) == s
  {
    JoinCons(x, rest);
    assert s[..k] + s[k..] == s;
  }

  lemma ConsWellFormed(x: Piece, rest: seq<Piece>)
    requires PieceOk(x) && WellFormed(rest)
    requires x.Open? && rest != [] ==> !rest[0].Text?
    ensures WellFormed([x] + rest)
  {
    var ps := [x] + rest;
    forall k | 1 <= k < |ps| ensures ps[k] == rest[k - 1] {
    }
  }

  /** Replace-all of a token-shaped pattern, on any template whatever its
      braces: exactly the tokens of the template that equal the pattern up
      to case are replaced, and every other character is kept. */
  lemma ReplaceAllAny(s: string, pat: string, rep: string)
    requires IsToken(pat)
    ensures ReplaceAll(s, pat, rep) == Join(Subst(Parse(s), pat, rep))
  {
    WellFormedSplit(Parse(s), pat);
    ReplaceAllPieces(Parse(s), pat, rep);
  }

  /** The renderer's meaning on any template, nested braces included, as
      long as no unclosed brace sits right before one of the seven
      placeholders. */
  lemma RenderAnyTemplate(s: string, recipient: string, quantity: int, productName: Option<string>)
    requires Guarded(Parse(s)) && Plain(recipient) && Plain(ProductText(productName))
    ensures Render(s, recipient, quantity, productName) ==
      Join(ResolveAll(Parse(s), recipient, quantity, productName))
  {
    RenderPieces(Parse(s), recipient, quantity, productName);
  }

  /** Without the guard the chain can build a placeholder across a join:
      "{IG{player}}" with recipient "N" becomes "{IGN}" after the first
      replace-all, and then "N", where the pieces give "{IGN}". */
  lemma UnguardedTemplate(quantity: int)
    ensures Render("{IG{player}}", "N", quantity, None) == "N"
    ensures Join(ResolveAll([Open("{IG"), Token("{player}"), Text("}")], "N", quantity, None)) == "{IGN}"
  {
    var q := DecimalString(quantity);
    UnguardedFirstStep();
    UnguardedSecondStep();
    ReplaceAllShort("N", "{username}", "N");
    ReplaceAllShort("N", "{quantity}", q);
    ReplaceAllShort("N", "{AMOUNT}", q);
    ReplaceAllShort("N", "{product}", "");
    ReplaceAllShort("N", "{product_name}", "");
    UnguardedPieces(quantity);
  }

  lemma UnguardedFirstStep()
    ensures ReplaceAll("{IG{player}}", "{player}", "N") == "{IGN}"
  {
    assert "{IG{player}}" == "{IG" + "{player}}";
    assert "{player}}" == "{player}" + "}";
    assert IsOpen("{IG") && IsToken("{player}");
    ReplaceAllAfterOpen("{IG", "{player}}", "{player}", "N");
    ReplaceAllMatchedHead("{player}", "}", "{player}", "N");
    ReplaceAllShort("}", "{player}", "N");
  }

  lemma UnguardedSecondStep()
    ensures ReplaceAll("{IGN}", "{IGN}", "N") == "N"
  {
    assert "{IGN}" == "{IGN}" + "";
    ReplaceAllMatchedHead("{IGN}", "", "{IGN}", "N");
    ReplaceAllShort("", "{IGN}", "N");
  }

  lemma UnguardedPieces(quantity: int)
    ensures Join(ResolveAll([Open("{IG"), Token("{player}"), Text("}")], "N", quantity, None)) == "{IGN}"
  {
    assert SameIgnoringCase("{player}", PlayerTokens[0]);
    assert ResolveAll([Open("{IG"), Token("{player}"), Text("}")], "N", quantity, None)
      == [Open("{IG"), Text("N"), Text("}")];
    JoinCons(Text("}"), []);
    JoinCons(Text("N"), [Text("}")]);
    JoinCons(Open("{IG"), [Text("N"), Text("}")]);
  }

  // ------------------------------------------------------------ examples

  lemma GiveTemplateJoin(a: string, b: string)
    ensures Join([Text(a), Token("{IGN}"), Text(b), Token("{AMOUNT}")]) == a + "{IGN}" + b + "{AMOUNT}"
  {
    JoinCons(Token("{AMOUNT}"), []);
    JoinCons(Text(b), [Token("{AMOUNT}")]);
    JoinCons(Token("{IGN}"), [Text(b), Token("{AMOUNT}")]);
    JoinCons(Text(a), [Token("{IGN}"), Text(b), Token("{AMOUNT}")]);
  }

  lemma ResolveAmountToken(recipient: string, quantity: int)
    ensures Resolve(Token("{AMOUNT}"), recipient, quantity, None) == Text(DecimalString(quantity))
  {
    assert !SameIgnoringCase("{AMOUNT}", PlayerTokens[0]) by {
      assert ToLowerChar("{AMOUNT}"[1]) != ToLowerChar(PlayerTokens[0][1]);
    }
    assert !SameIgnoringCase("{AMOUNT}", PlayerTokens[1]);
    assert !SameIgnoringCase("{AMOUNT}", PlayerTokens[2]);
    assert SameIgnoringCase("{AMOUNT}", QuantityTokens[1]);
  }

  lemma GiveTemplateResolved(a: string, b: string, recipient: string, quantity: int)
    requires Plain(a) && Plain(b)
    ensures WellFormed([Text(a), Token("{IGN}"), Text(b), Token("{AMOUNT}")])
    ensures Guarded([Text(a), Token("{IGN}"), Text(b), Token("{AMOUNT}")])
    ensures ResolveAll([Text(a), Token("{IGN}"), Text(b), Token("{AMOUNT}")], recipient, quantity, None)
      == [Text(a), Text(recipient), Text(b), Text(DecimalString(quantity))]
  {
    GiveTemplateShape(a, b);
    assert SameIgnoringCase("{IGN}", PlayerTokens[1]);
    ResolveAmountToken(recipient, quantity);
  }

  lemma GiveTemplateShape(a: string, b: string)
    requires Plain(a) && Plain(b)
    ensures WellFormed([Text(a), Token("{IGN}"), Text(b), Token("{AMOUNT}")])
    ensures Guarded([Text(a), Token("{IGN}"), Text(b), Token("{AMOUNT}")])
  {
    var ps := [Text(a), Token("{IGN}"), Text(b), Token("{AMOUNT}")];
    assert IsToken("{IGN}") && IsToken("{AMOUNT}");
    NoOpenGuarded(ps);
  }

  lemma NoOpenGuarded(ps: seq<Piece>)
    requires forall k :: 0 <= k < |ps| ==> !ps[k].Open?
    ensures Guarded(ps)
  {
  }

  lemma GiveResolvedJoin(a: string, b: string, recipient: string, quantity: int)
    requires Plain(a) && Plain(b)
    ensures Join(ResolveAll([Text(a), Token("{IGN}"), Text(b), Token("{AMOUNT}")], recipient, quantity, None))
      == a + recipient + b + DecimalString(quantity)
  {
    var q := DecimalString(quantity);
    GiveTemplateResolved(a, b, recipient, quantity);
    JoinCons(Text(q), []);
    JoinCons(Text(b), [Text(q)]);
    JoinCons(Text(recipient), [Text(b), Text(q)]);
    JoinCons(Text(a), [Text(recipient), Text(b), Text(q)]);
  }

  /** A command such as "give {IGN} diamond {AMOUNT}": the recipient goes
      where {IGN} was and the quantity's decimal digits where {AMOUNT} was. */
  lemma RenderGiveCommand(a: string, b: string, recipient: string, quantity: int)
    requires Plain(a) && Plain(b) && Plain(recipient)
    ensures Render(a + "{IGN}" + b + "{AMOUNT}", recipient, quantity, None) ==
      a + recipient + b + DecimalString(quantity)
  {
    var ps := [Text(a), Token("{IGN}"), Text(b), Token("{AMOUNT}")];
    GiveTemplateJoin(a, b);
    GiveTemplateResolved(a, b, recipient, quantity);
    GiveResolvedJoin(a, b, recipient, quantity);
    assert Plain(ProductText(None));
    RenderPieces(ps, recipient, quantity, None);
  }

  /** Text holding no brace of either kind. */
  predicate BraceFree(s: string)
  {
    forall i :: 0 <= i < |s| ==> s[i] != '{' && s[i] != '}'
  }

  /** The unclosed brace `{"text":"` of a JSON text component, then `b`. */
  function JsonOpen(b: string): string
  {
    "{\"text\":\"" + b
  }

  function JsonTextPieces(a: string, b: string): seq<Piece>
  {
    [Text(a), Open(JsonOpen(b)), Token("{player}"), Text("\"}")]
  }

  lemma JsonOpenSafe(b: string)
    requires BraceFree(b)
    ensures IsOpen(JsonOpen(b)) && SafeOpen(JsonOpen(b))
  {
    var o := JsonOpen(b);
    forall i | 0 < i < |o| ensures o[i] != '{' && o[i] != '}' {
      if i >= 9 {
        assert o[i] == b[i - 9];
      }
    }
    SafeOpenBySecond(o);
  }

  /** Pieces whose every unclosed brace is safe are guarded. */
  lemma SafeOpensGuarded(ps: seq<Piece>)
    requires forall k :: 0 <= k < |ps| && ps[k].Open? ==> SafeOpen(ps[k].t)
    ensures Guarded(ps)
  {
  }

  lemma JsonTextShape(a: string, b: string)
    requires Plain(a) && BraceFree(b)
    ensures WellFormed(JsonTextPieces(a, b)) && Guarded(JsonTextPieces(a, b))
  {
    JsonOpenSafe(b);
    assert IsToken("{player}");
    SafeOpensGuarded(JsonTextPieces(a, b));
  }

  lemma JsonTextResolved(a: string, b: string, recipient: string, quantity: int, productName: Option<string>)
    ensures ResolveAll(JsonTextPieces(a, b), recipient, quantity, productName)
      == [Text(a), Open(JsonOpen(b)), Text(recipient), Text("\"}")]
  {
    assert SameIgnoringCase("{player}", PlayerTokens[0]);
  }

  lemma JoinFour(w: Piece, x: Piece, y: Piece, z: Piece)
    ensures Join([w, x, y, z]) == PieceText(w) + PieceText(x) + PieceText(y) + PieceText(z)
  {
    JoinCons(z, []);
    JoinCons(y, [z]);
    JoinCons(x, [y, z]);
    JoinCons(w, [x, y, z]);
  }

  /** A JSON text component with a placeholder inside its string, as in
      `tellraw @a {"text":"Thanks {player}"}`: the recipient goes where
      {player} was and every other character stays. */
  lemma RenderJsonText(a: string, b: string, recipient: string, quantity: int, productName: Option<string>)
    requires Plain(a) && BraceFree(b) && Plain(recipient) && Plain(ProductText(productName))
    ensures Render(a + JsonOpen(b) + "{player}" + "\"}", recipient, quantity, productName)
      == a + JsonOpen(b) + recipient + "\"}"
  {
    var ps := JsonTextPieces(a, b);
    JsonTextShape(a, b);
    JoinFour(Text(a), Open(JsonOpen(b)), Token("{player}"), Text("\"}"));
    JsonTextResolved(a, b, recipient, quantity, productName);
    JoinFour(Text(a), Open(JsonOpen(b)), Text(recipient), Text("\"}"));
    RenderPieces(ps, recipient, quantity, productName);
  }

  /** `give {player} diamond_sword{display:{Name:'"{player}"'}}` as pieces,
      with the text around the first {player} left open. */
  function NbtHead(c: string, d: string): seq<Piece>
  {
    [Text(c), Token("{player}"), Text(d)]
  }

  const NbtTail: seq<Piece> := [Open("{display:"), Open("{Name:'\""), Token("{player}"), Text("\"'}}")]

  function NbtPieces(c: string, d: string): seq<Piece>
  {
    NbtHead(c, d) + NbtTail
  }

  lemma DisplaySafe()
    ensures IsOpen("{display:") && SafeOpen("{display:")
  {
    SafeOpenBySecond("{display:");
  }

  lemma NameSafe()
    ensures IsOpen("{Name:'\"") && SafeOpen("{Name:'\"")
  {
    SafeOpenBySecond("{Name:'\"");
  }

  /** Every unclosed brace among the pieces is safe. */
  predicate OpensSafe(ps: seq<Piece>)
  {
    forall k :: 0 <= k < |ps| && ps[k].Open? ==> SafeOpen(ps[k].t)
  }

  lemma WellFormedAppend(ps: seq<Piece>, qs: seq<Piece>)
    requires WellFormed(ps) && WellFormed(qs)
    requires |ps| > 0 && ps[|ps| - 1].Open? && |qs| > 0 ==> !qs[0].Text?
    requires OpensSafe(ps) && OpensSafe(qs)
    ensures WellFormed(ps + qs) && OpensSafe(ps + qs)
  {
    var r := ps + qs;
    forall k | 0 <= k < |r| ensures PieceOk(r[k]) && (r[k].Open? ==> SafeOpen(r[k].t)) {
      if k >= |ps| {
        assert r[k] == qs[k - |ps|];
      }
    }
    forall k | 0 <= k < |r| - 1 && r[k].Open? ensures !r[k + 1].Text? {
      if k >= |ps| {
        assert r[k] == qs[k - |ps|] && r[k + 1] == qs[k + 1 - |ps|];
      }
    }
  }

  /** Two safe unclosed braces, a token, then text. */
  lemma OpensTokenShape(o1: string, o2: string, t: string, e: string)
    requires IsOpen(o1) && SafeOpen(o1) && IsOpen(o2) && SafeOpen(o2) && IsToken(t) && Plain(e)
    ensures var ps := [Open(o1), Open(o2), Token(t), Text(e)]; WellFormed(ps) && OpensSafe(ps)
  {
  }

  lemma NbtTailShape()
    ensures WellFormed(NbtTail) && OpensSafe(NbtTail)
  {
    DisplaySafe();
    NameSafe();
    assert IsToken("{player}");
    OpensTokenShape("{display:", "{Name:'\"", "{player}", "\"'}}");
  }

  lemma NbtShape(c: string, d: string)
    requires Plain(c) && Plain(d)
    ensures WellFormed(NbtPieces(c, d)) && Guarded(NbtPieces(c, d))
  {
    assert IsToken("{player}");
    assert WellFormed(NbtHead(c, d)) && OpensSafe(NbtHead(c, d));
    NbtTailShape();
    WellFormedAppend(NbtHead(c, d), NbtTail);
    SafeOpensGuarded(NbtPieces(c, d));
  }

  lemma NbtJoin(c: string, d: string)
    ensures Join(NbtPieces(c, d)) == c + "{player}" + d + "{display:{Name:'\"{player}\"'}}"
  {
    JoinAppend(NbtHead(c, d), NbtTail);
    JoinThree(Text(c), Token("{player}"), Text(d));
    JoinFour(Open("{display:"), Open("{Name:'\""), Token("{player}"), Text("\"'}}"));
  }

  lemma ResolveAllAppend(ps: seq<Piece>, qs: seq<Piece>, recipient: string, quantity: int, productName: Option<string>)
    ensures ResolveAll(ps + qs, recipient, quantity, productName)
      == ResolveAll(ps, recipient, quantity, productName) + ResolveAll(qs, recipient, quantity, productName)
  {
    var l := ResolveAll(ps + qs, recipient, quantity, productName);
    var r := ResolveAll(ps, recipient, quantity, productName) + ResolveAll(qs, recipient, quantity, productName);
    forall k | 0 <= k < |l| ensures l[k] == r[k] {
      if k >= |ps| {
        assert (ps + qs)[k] == qs[k - |ps|];
      }
    }
  }

  lemma NbtHeadResolved(c: string, d: string, recipient: string, quantity: int, productName: Option<string>)
    ensures ResolveAll(NbtHead(c, d), recipient, quantity, productName) == [Text(c), Text(recipient), Text(d)]
  {
    assert SameIgnoringCase("{player}", PlayerTokens[0]);
  }

  lemma NbtTailResolved(recipient: string, quantity: int, productName: Option<string>)
    ensures ResolveAll(NbtTail, recipient, quantity, productName)
      == [Open("{display:"), Open("{Name:'\""), Text(recipient), Text("\"'}}")]
  {
    assert SameIgnoringCase("{player}", PlayerTokens[0]);
  }

  lemma NbtResolvedJoin(c: string, d: string, recipient: string, quantity: int, productName: Option<string>)
    ensures Join(ResolveAll(NbtPieces(c, d), recipient, quantity, productName))
      == c + recipient + d + ("{display:{Name:'\"" + recipient + "\"'}}")
  {
    var head := [Text(c), Text(recipient), Text(d)];
    var tail := [Open("{display:"), Open("{Name:'\""), Text(recipient), Text("\"'}}")];
    ResolveAllAppend(NbtHead(c, d), NbtTail, recipient, quantity, productName);
    NbtHeadResolved(c, d, recipient, quantity, productName);
    NbtTailResolved(recipient, quantity, productName);
    JoinAppend(head, tail);
    JoinThree(Text(c), Text(recipient), Text(d));
    JoinFour(Open("{display:"), Open("{Name:'\""), Text(recipient), Text("\"'}}"));
  }

  /** Placeholders inside nested NBT braces are replaced like any other:
      `give {player} diamond_sword{display:{Name:'"{player}"'}}` names the
      recipient twice. */
  lemma RenderNbtName(c: string, d: string, recipient: string, quantity: int, productName: Option<string>)
    requires Plain(c) && Plain(d) && Plain(recipient) && Plain(ProductText(productName))
    ensures Render(c + "{player}" + d + "{display:{Name:'\"{player}\"'}}", recipient, quantity, productName)
      == c + recipient + d + ("{display:{Name:'\"" + recipient + "\"'}}")
  {
    NbtShape(c, d);
    NbtJoin(c, d);
    NbtResolvedJoin(c, d, recipient, quantity, productName);
    RenderPieces(NbtPieces(c, d), recipient, quantity, productName);
  }

  /** An unknown token such as {FOO} passes through unchanged. */
  lemma RenderUnknownToken(recipient: string, quantity: int, productName: Option<string>)
    ensures Render("{FOO}", recipient, quantity, productName) == "{FOO}"
  {
    assert !MatchesAt("{FOO}", "{IGN}", 0) by {
      assert ToLowerChar("{FOO}"[1]) != ToLowerChar("{IGN}"[1]);
    }
    RenderWithoutTokens("{FOO}", recipient, quantity, productName);
  }

  lemma PlayerReplaced(rep: string)
    ensures ReplaceAll("{player}", "{player}", rep) == rep
  {
    assert MatchesAt("{player}", "{player}", 0);
    ReplaceAllShort("", "{player}", rep);
  }

  lemma AmountKept(pat: string, rep: string)
    requires IsToken(pat) && !SameIgnoringCase("{amount}", pat)
    ensures ReplaceAll("{amount}", pat, rep) == "{amount}"
  {
    var t := "{amount}";
    assert IsToken(t);
    ReplaceAllAfterToken(t, "", pat, rep);
    ReplaceAllShort("", pat, rep);
    assert t + "" == t;
  }

  lemma AmountReplaced(q: string)
    ensures ReplaceAll("{amount}", "{AMOUNT}", q) == q
  {
    assert IsToken("{amount}") && IsToken("{AMOUNT}");
    assert SameIgnoringCase("{amount}", "{AMOUNT}");
    ReplaceAllAfterToken("{amount}", "", "{AMOUNT}", q);
    ReplaceAllShort("", "{AMOUNT}", q);
  }

  lemma PlainKept(s: string, pat: string, rep: string)
    requires Plain(s) && |pat| > 0 && pat[0] == '{'
    ensures ReplaceAll(s, pat, rep) == s
  {
    ReplaceAllAfterPlain(s, "", pat, rep);
    ReplaceAllShort("", pat, rep);
    assert s + "" == s;
  }

  /** The replace-alls run in sequence, so a later one also rewrites text an
      earlier one inserted: a recipient spelled "{amount}" ends up as the quantity. */
  lemma RenderIsSequential(quantity: int)
    ensures Render("{player}", "{amount}", quantity, None) == DecimalString(quantity)
  {
    var q := DecimalString(quantity);
    PlayerReplaced("{amount}");
    assert IsToken("{IGN}") && IsToken("{username}") && IsToken("{quantity}");
    AmountKept("{IGN}", "{amount}");
    AmountKept("{username}", "{amount}");
    assert !SameIgnoringCase("{amount}", "{quantity}");
    AmountKept("{quantity}", q);
    AmountReplaced(q);
    DecimalPlain(quantity);
    PlainKept(q, "{product}", "");
    PlainKept(q, "{product_name}", "");
  }
}
