/**
 Where sequential replacement and simultaneous substitution of environment variables differ, and which
 inputs are safe in every environment.
 */
module EnvLimits {
  import opened Base
  import opened EnvExpansion

  // ----- where the two differ

  lemma LexReference(name: string, rest: string)
    requires IsName(name)
    ensures Lex(Reference(name) + rest) == [Ref(name)] + Lex(rest)
  {
    ReferenceMatches(name, rest);
    assert (Reference(name) + rest)[|Reference(name)|..] == rest;
  }

  lemma LexTwo(a: string, b: string)
    requires IsName(a) && IsName(b)
    ensures Lex(Reference(a) + Reference(b)) == [Ref(a), Ref(b)]
    ensures Captures(Lex(Reference(a) + Reference(b))) == [a, b]
  {
    LexReference(a, Reference(b));
    LexReference(b, "");
    assert Reference(b) + "" == Reference(b);
    assert [Ref(a), Ref(b)][1..] == [Ref(b)];
    assert Captures([Ref(b)]) == [b];
  }

  lemma ReplaceHere(name: string, rest: string, with: string)
    requires IsName(name)
    ensures ReplaceAll(Reference(name) + rest, Reference(name), with) == with + ReplaceAll(rest, Reference(name), with)
  {
    assert (Reference(name) + rest)[|Reference(name)|..] == rest;
  }

  lemma ReplaceTwice(name: string, with: string)
    requires IsName(name)
    ensures ReplaceAll(Reference(name) + Reference(name), Reference(name), with) == with + with
  {
    ReplaceHere(name, Reference(name), with);
    ReplaceHere(name, "", with);
    assert Reference(name) + "" == Reference(name);
  }

  lemma ReplaceLast(b: string, env: Env)
    requires IsName(b)
    ensures ReplaceEach(Reference(b) + Reference(b), [b], env) == Value(env, b) + Value(env, b)
  {
    ReplaceTwice(b, Value(env, b));
    assert [b][1..] == [];
  }

  lemma ReplaceFirstOfTwo(a: string, b: string, w: string)
    requires IsName(a) && IsName(b) && a != b && '$' !in b
    ensures ReplaceAll(Reference(a) + Reference(b), Reference(a), w) == w + Reference(b)
  {
    ReplaceHere(a, Reference(b), w);
    OtherReferenceKept(b, "", a, w);
    assert Reference(b) + "" == Reference(b);
  }

  lemma FirstHalfDiffers(x: string, v: string)
    requires x != v
    ensures x + v != v + v
  {
    if |v| == |x| {
      assert (x + v)[..|v|] == x;
      assert (v + v)[..|v|] == v;
    }
  }

  lemma SubstituteTwo(a: string, b: string, env: Env)
    ensures Substitute([Ref(a), Ref(b)], env) == Value(env, a) + Value(env, b)
  {
    assert [Ref(a), Ref(b)][1..] == [Ref(b)];
    assert Substitute([Ref(b)], env) == Value(env, b);
  }

  /** A value that contains a reference is expanded again: with A=${B}, the text ${A}${B} becomes BB and not ${B}B. */
  lemma ValueIsExpandedAgain(a: string, b: string, v: string)
    requires IsName(a) && IsName(b) && a != b && '$' !in b && v != Reference(b)
    ensures var input, env := Reference(a) + Reference(b), map[a := Reference(b), b := v];
            && ReplaceEach(input, Captures(Lex(input)), env) == v + v
            && Substitute(Lex(input), env) == Reference(b) + v != v + v
  {
    var env := map[a := Reference(b), b := v];
    LexTwo(a, b);
    ReplaceFirstOfTwo(a, b, Reference(b));
    assert [a, b][1..] == [b];
    ReplaceLast(b, env);
    SubstituteTwo(a, b, env);
    FirstHalfDiffers(Reference(b), v);
  }

  lemma LexStray(a: string, b: string)
    requires IsName(a) && IsName(b)
    ensures Lex("$" + (Reference(a) + Reference(b))) == [Lit('$'), Ref(a), Ref(b)]
    ensures Captures([Lit('$'), Ref(a), Ref(b)]) == [a, b]
  {
    var two := Reference(a) + Reference(b);
    var input := "$" + two;
    LexTwo(a, b);
    assert input[1..] == two;
    assert input[1] == '$';
    assert MatchHere(input).None?;
    assert [Lit('$'), Ref(a), Ref(b)][1..] == [Ref(a), Ref(b)];
  }

  lemma KeepOne(c: char, rest: string, name: string, with: string)
    requires |rest| >= 2 ==> c != '$' || rest[0] != '{' || (name != "" && rest[1] != name[0])
    requires IsName(name)
    ensures ReplaceAll([c] + rest, Reference(name), with) == [c] + ReplaceAll(rest, Reference(name), with)
  {
    var s := [c] + rest;
    assert s[1..] == rest;
    if |rest| >= 2 {
      assert s[0] == c && s[1] == rest[0] && s[2] == rest[1];
      var p := Reference(name);
      assert p[0] == '$' && p[1] == '{' && p[2] == name[0];
    }
  }

  lemma ReferenceSplits(b: string, rest: string)
    ensures ['$'] + (("{" + b + "}") + rest) == Reference(b) + rest
  {
  }

  lemma ReplaceStray(a: string, b: string)
    requires IsName(a) && IsName(b) && a != b && '$' !in b
    ensures ReplaceAll("$" + (Reference(a) + Reference(b)), Reference(a), "{" + b + "}") == Reference(b) + Reference(b)
  {
    var w := "{" + b + "}";
    ReplaceFirstOfTwo(a, b, w);
    KeepOne('$', Reference(a) + Reference(b), a, w);
    ReferenceSplits(b, Reference(b));
  }

  /** A stray `$` can complete a reference: with A={B}, the text $${A}${B} becomes BB and not ${B}B. */
  lemma StrayDollarCompletes(a: string, b: string, v: string)
    requires IsName(a) && IsName(b) && a != b && '$' !in b && v != Reference(b)
    ensures var input, env := "$" + (Reference(a) + Reference(b)), map[a := "{" + b + "}", b := v];
            && ReplaceEach(input, Captures(Lex(input)), env) == v + v
            && Substitute(Lex(input), env) == Reference(b) + v != v + v
  {
    var w := "{" + b + "}";
    var env := map[a := w, b := v];
    LexStray(a, b);
    ReplaceStray(a, b);
    assert [a, b][1..] == [b];
    ReplaceLast(b, env);
    SubstituteTwo(a, b, env);
    assert [Lit('$'), Ref(a), Ref(b)][1..] == [Ref(a), Ref(b)];
    assert "$" + (w + v) == Reference(b) + v;
    FirstHalfDiffers(Reference(b), v);
  }

  /** `$` and `{` in front of a reference or of plain text stay. */
  lemma KeepOpening(rest: string, name: string, with: string)
    requires IsName(name)
    requires rest != "" ==> rest[0] != name[0]
    ensures ReplaceAll("${" + rest, Reference(name), with) == "${" + ReplaceAll(rest, Reference(name), with)
  {
    KeepOne('$', ['{'] + rest, name, with);
    KeepOne('{', rest, name, with);
    assert ['$'] + (['{'] + rest) == "${" + rest;
    var r := ReplaceAll(rest, Reference(name), with);
    assert ['$'] + (['{'] + r) == "${" + r;
  }

  lemma {:induction false} PlainKept(v: string, name: string, with: string)
    requires '$' !in v
    ensures ReplaceAll(v, Reference(name), with) == v
  {
    SkipPlain(v, "", name, with);
    assert v + "" == v;
  }

  lemma ReplaceInnermost(a: string, v: string)
    requires IsName(a) && '$' !in a
    ensures ReplaceAll(Reference(a) + Reference("${" + a), Reference(a), v) == v + ("${" + v)
  {
    ReplaceHere(a, Reference("${" + a), v);
    assert Reference("${" + a) == "${" + Reference(a);
    KeepOpening(Reference(a), a, v);
    ReplaceHere(a, "", v);
    assert Reference(a) + "" == Reference(a);
  }

  lemma ReplaceTwoNames(s: string, a: string, b: string, env: Env)
    ensures ReplaceEach(s, [a, b], env)
            == ReplaceAll(ReplaceAll(s, Reference(a), Value(env, a)), Reference(b), Value(env, b))
  {
    var s1 := ReplaceAll(s, Reference(a), Value(env, a));
    var s2 := ReplaceAll(s1, Reference(b), Value(env, b));
    assert [a, b][1..] == [b] && [b][1..] == [];
    assert ReplaceEach(s2, [], env) == s2;
    assert ReplaceEach(s1, [b], env) == s2;
  }

  /** A name that contains a reference is broken by an earlier one: with A=v, the text ${A}${${A} becomes v${v. */
  lemma NameWithDollarIsLost(a: string, v: string, w: string)
    requires IsName(a) && '$' !in a && '$' !in v && w != "${" + v
    ensures var input, env := Reference(a) + Reference("${" + a), map[a := v, "${" + a := w];
            && ReplaceEach(input, Captures(Lex(input)), env) == v + ("${" + v)
            && Substitute(Lex(input), env) == v + w != v + ("${" + v)
  {
    var b := "${" + a;
    var env := map[a := v, b := w];
    LexTwo(a, b);
    ReplaceTwoNames(Reference(a) + Reference(b), a, b, env);
    ReplaceInnermost(a, v);
    SkipPlain(v, "${" + v, b, w);
    KeepOpening(v, b, w);
    PlainKept(v, b, w);
    SubstituteTwo(a, b, env);
    assert (v + w)[|v|..] == w;
    assert (v + ("${" + v))[|v|..] == "${" + v;
  }

  // ----- exactly when every environment is safe

  /**
   A pattern `${n}` has one `}`, at its end, so whether it is replaced is decided by the text between two
   closing braces. The text is kept as the segments between its closing braces: each a padding of `x`, which
   replacements before it have left there, and a core.
   */
  datatype Segment = Segment(pad: nat, core: string)

  function Xs(n: nat): string {
    seq(n, _ => 'x')
  }

  /** A reference without its closing brace. */
  function Opening(name: string): string {
    "${" + name
  }

  /** The value that every name gets: a reference to `b` and `n` times `x`. */
  function Bait(b: string, n: nat): string {
    Reference(b) + Xs(n)
  }

  predicate EndsWith(s: string, end: string) {
    |s| >= |end| && s[|s| - |end|..] == end
  }

  function Text(segs: seq<Segment>): string
    requires segs != []
  {
    var first := Xs(segs[0].pad) + segs[0].core;
    if |segs| == 1 then first else first + "}" + Text(segs[1..])
  }

  predicate Closed(segs: seq<Segment>) {
    segs != [] && forall i | 0 <= i < |segs| :: '}' !in segs[i].core
  }

  /** A replacement at the end of a core leaves the opening of `b` there. */
  function Rewritten(core: string, name: string, b: string): string {
    if EndsWith(core, Opening(name)) then core[..|core| - |Opening(name)|] + Opening(b) else core
  }

  /** Replacing `name` by the bait in all segments; `carry` is padding from a replacement just before them. */
  function Pass(segs: seq<Segment>, carry: nat, name: string, b: string, n: nat): seq<Segment>
    requires segs != []
  {
    var first := Segment(segs[0].pad + carry, segs[0].core);
    if |segs| == 1 then [first]
    else
      [first.(core := Rewritten(first.core, name, b))]
      + Pass(segs[1..], if EndsWith(first.core, Opening(name)) then n else 0, name, b, n)
  }

  function Passes(segs: seq<Segment>, names: seq<string>, b: string, n: nat): seq<Segment>
    requires segs != []
    decreases |names|
  {
    if names == [] then segs
    else
      PassAt(segs, 0, names[0], b, n, 0);
      Passes(Pass(segs, 0, names[0], b, n), names[1..], b, n)
  }

  /** What a pass does to one segment. */
  lemma {:induction false} PassAt(segs: seq<Segment>, carry: nat, name: string, b: string, n: nat, i: nat)
    requires i < |segs|
    ensures var after := Pass(segs, carry, name, b, n);
            && |after| == |segs|
            && (i < |segs| - 1 ==> after[i].core == Rewritten(segs[i].core, name, b))
            && (i == |segs| - 1 ==> after[i].core == segs[i].core)
            && after[i].pad == segs[i].pad
                               + if i == 0 then carry else if EndsWith(segs[i - 1].core, Opening(name)) then n else 0
    decreases |segs|
  {
    if |segs| > 1 {
      var next := if EndsWith(segs[0].core, Opening(name)) then n else 0;
      PassAt(segs[1..], next, name, b, n, if i == 0 then 0 else i - 1);
    }
  }

  lemma PassClosed(segs: seq<Segment>, carry: nat, name: string, b: string, n: nat)
    requires Closed(segs) && IsName(b)
    ensures Closed(Pass(segs, carry, name, b, n))
  {
    var after := Pass(segs, carry, name, b, n);
    PassAt(segs, carry, name, b, n, 0);
    forall i | 0 <= i < |after| ensures '}' !in after[i].core {
      PassAt(segs, carry, name, b, n, i);
      assert '}' !in segs[i].core;
    }
  }

  // ----- a pass is what the replacement does

  /** The first closing brace after a text without one. */
  lemma FirstBrace(u: string, rest: string)
    requires '}' !in u
    ensures IndexOf(u + "}" + rest, '}', 0) == |u|
  {
    var s := u + "}" + rest;
    var i := IndexOf(s, '}', 0);
    assert s[|u|] == '}';
    assert forall k | 0 <= k < |u| :: s[k] == u[k];
  }

  lemma PatternAtStart(u: string, rest: string, name: string)
    requires '}' !in u && IsName(name)
    ensures Reference(name) <= u + "}" + rest <==> u == Opening(name)
  {
    var s, p := u + "}" + rest, Reference(name);
    assert p == Opening(name) + "}";
    if p <= s {
      var after := s[|p|..];
      assert s == Opening(name) + "}" + after;
      FirstBrace(u, rest);
      FirstBrace(Opening(name), after);
      assert u == s[..|u|] == Opening(name);
    }
  }

  lemma {:induction false} ReplaceSegment(u: string, rest: string, name: string, with: string)
    requires '}' !in u && IsName(name)
    ensures ReplaceAll(u + "}" + rest, Reference(name), with)
            == if EndsWith(u, Opening(name))
               then u[..|u| - |Opening(name)|] + with + ReplaceAll(rest, Reference(name), with)
               else u + "}" + ReplaceAll(rest, Reference(name), with)
    decreases |u|
  {
    var s, p := u + "}" + rest, Reference(name);
    PatternAtStart(u, rest, name);
    if u == Opening(name) {
      assert s[|p|..] == rest;
      assert u[..0] == "";
    } else if u == "" {
      assert s[1..] == rest;
    } else {
      var tail := u[1..];
      assert s[1..] == tail + "}" + rest;
      ReplaceSegment(tail, rest, name, with);
      ShorterEnd(u, Opening(name));
    }
  }

  lemma ShorterEnd(u: string, end: string)
    requires u != "" && u != end
    ensures EndsWith(u, end) <==> EndsWith(u[1..], end)
    ensures EndsWith(u, end) ==> u[..|u| - |end|] == [u[0]] + u[1..][..|u| - 1 - |end|]
  {
    if |u| == |end| {
      assert u[0..] == u;
    } else if |u| > |end| {
      assert u[|u| - |end|..] == u[1..][|u| - 1 - |end|..];
    }
  }

  lemma {:induction false} ReplaceLastSegment(u: string, name: string, with: string)
    requires '}' !in u && IsName(name)
    ensures ReplaceAll(u, Reference(name), with) == u
    decreases |u|
  {
    if u != "" {
      ReplaceLastSegment(u[1..], name, with);
      assert Reference(name)[|name| + 2] == '}';
    }
  }

  lemma PaddingIsNoEnd(pad: nat, core: string, name: string)
    ensures EndsWith(Xs(pad) + core, Opening(name)) <==> EndsWith(core, Opening(name))
    ensures EndsWith(core, Opening(name)) ==>
              (Xs(pad) + core)[..pad + |core| - |Opening(name)|] == Xs(pad) + core[..|core| - |Opening(name)|]
  {
    var u, end := Xs(pad) + core, Opening(name);
    if |core| >= |end| {
      assert u[|u| - |end|..] == core[|core| - |end|..];
    } else if |u| >= |end| {
      assert u[|u| - |end|] == 'x' != end[0];
    }
  }

  /** Text whose first segment carries extra padding. */
  lemma PassCarries(segs: seq<Segment>, carry: nat, name: string, b: string, n: nat)
    requires segs != []
    ensures Pass(segs, carry, name, b, n) != []
    ensures Text(Pass(segs, carry, name, b, n)) == Xs(carry) + Text(Pass(segs, 0, name, b, n))
  {
    var with, plain := Pass(segs, carry, name, b, n), Pass(segs, 0, name, b, n);
    PassAt(segs, 0, name, b, n, 0);
    assert with[1..] == plain[1..] && with[0].core == plain[0].core;
    assert Xs(with[0].pad) == Xs(carry) + Xs(plain[0].pad);
    Regroup(Xs(carry), Xs(plain[0].pad), with[0].core);
    if |segs| > 1 {
      Regroup(Xs(carry), Xs(plain[0].pad) + plain[0].core, "}" + Text(plain[1..]));
      Regroup(Xs(plain[0].pad) + plain[0].core, "}", Text(plain[1..]));
      Regroup(Xs(with[0].pad) + with[0].core, "}", Text(with[1..]));
    }
  }

  /** The text of a pass, from its first segment and the pass over the rest. */
  lemma PassText(segs: seq<Segment>, name: string, b: string, n: nat)
    requires |segs| > 1
    ensures Pass(segs[1..], 0, name, b, n) != []
    ensures var core, after := segs[0].core, Text(Pass(segs[1..], 0, name, b, n));
            Text(Pass(segs, 0, name, b, n))
            == Xs(segs[0].pad) + Rewritten(core, name, b) + "}"
               + if EndsWith(core, Opening(name)) then Xs(n) + after else after
  {
    var carry := if EndsWith(segs[0].core, Opening(name)) then n else 0;
    PassCarries(segs[1..], 0, name, b, n);
    PassCarries(segs[1..], carry, name, b, n);
    var after := Pass(segs, 0, name, b, n);
    assert after[1..] == Pass(segs[1..], carry, name, b, n);
    assert after[0] == Segment(segs[0].pad, Rewritten(segs[0].core, name, b));
  }

  /** Replacement in the first segment, in the same form. */
  lemma FirstReplaced(seg: Segment, rest: string, name: string, b: string, n: nat)
    requires '}' !in seg.core && IsName(name)
    ensures var after := ReplaceAll(rest, Reference(name), Bait(b, n));
            ReplaceAll(Xs(seg.pad) + seg.core + "}" + rest, Reference(name), Bait(b, n))
            == Xs(seg.pad) + Rewritten(seg.core, name, b) + "}"
               + if EndsWith(seg.core, Opening(name)) then Xs(n) + after else after
  {
    var first := Xs(seg.pad) + seg.core;
    assert '}' !in first;
    ReplaceSegment(first, rest, name, Bait(b, n));
    SegmentRewritten(seg, name, b, n, ReplaceAll(rest, Reference(name), Bait(b, n)));
  }

  lemma SegmentRewritten(seg: Segment, name: string, b: string, n: nat, after: string)
    ensures var first, end := Xs(seg.pad) + seg.core, Opening(name);
            (if EndsWith(first, end) then first[..|first| - |end|] + Bait(b, n) + after else first + "}" + after)
            == Xs(seg.pad) + Rewritten(seg.core, name, b) + "}"
               + if EndsWith(seg.core, end) then Xs(n) + after else after
  {
    PaddingIsNoEnd(seg.pad, seg.core, name);
    if EndsWith(seg.core, Opening(name)) {
      HitText(seg.pad, seg.core[..|seg.core| - |Opening(name)|], b, n, after);
    }
  }

  lemma {:induction false} PassReplaces(segs: seq<Segment>, name: string, b: string, n: nat)
    requires Closed(segs) && IsName(name) && IsName(b)
    ensures Pass(segs, 0, name, b, n) != []
    ensures ReplaceAll(Text(segs), Reference(name), Bait(b, n)) == Text(Pass(segs, 0, name, b, n))
    decreases |segs|
  {
    assert '}' !in segs[0].core;
    if |segs| == 1 {
      ReplaceLastSegment(Xs(segs[0].pad) + segs[0].core, name, Bait(b, n));
    } else {
      PassReplaces(segs[1..], name, b, n);
      FirstReplaced(segs[0], Text(segs[1..]), name, b, n);
      PassText(segs, name, b, n);
    }
  }

  lemma HitText(pad: nat, kept: string, b: string, n: nat, after: string)
    ensures Xs(pad) + kept + Bait(b, n) + after == Xs(pad) + (kept + Opening(b)) + "}" + (Xs(n) + after)
  {
    assert Bait(b, n) == Opening(b) + "}" + Xs(n);
  }

  lemma {:induction false} PassesReplace(segs: seq<Segment>, names: seq<string>, b: string, n: nat, env: Env)
    requires Closed(segs) && IsName(b)
    requires forall m | m in names :: IsName(m) && Value(env, m) == Bait(b, n)
    ensures Passes(segs, names, b, n) != []
    ensures ReplaceEach(Text(segs), names, env) == Text(Passes(segs, names, b, n))
    decreases |names|
  {
    if names != [] {
      assert names[0] in names;
      PassReplaces(segs, names[0], b, n);
      PassClosed(segs, 0, names[0], b, n);
      PassesReplace(Pass(segs, 0, names[0], b, n), names[1..], b, n, env);
    }
  }

  // ----- every reference is hit, the first one twice

  lemma {:induction false} PadsGrow(segs: seq<Segment>, names: seq<string>, b: string, n: nat, i: nat)
    requires i < |segs|
    ensures |Passes(segs, names, b, n)| == |segs| && Passes(segs, names, b, n)[i].pad >= segs[i].pad
    decreases |names|
  {
    if names != [] {
      PassAt(segs, 0, names[0], b, n, i);
      PadsGrow(Pass(segs, 0, names[0], b, n), names[1..], b, n, i);
    }
  }

  /** A core that ends in the opening of a name is hit at the latest when that name is replaced. */
  lemma {:induction false} Hit(segs: seq<Segment>, names: seq<string>, b: string, n: nat, i: nat, m: string)
    requires i < |segs| - 1 && m in names && EndsWith(segs[i].core, Opening(m))
    ensures |Passes(segs, names, b, n)| == |segs| && Passes(segs, names, b, n)[i + 1].pad >= segs[i + 1].pad + n
    decreases |names|
  {
    var next := Pass(segs, 0, names[0], b, n);
    PassAt(segs, 0, names[0], b, n, i);
    PassAt(segs, 0, names[0], b, n, i + 1);
    if EndsWith(segs[i].core, Opening(names[0])) {
      PadsGrow(next, names[1..], b, n, i + 1);
    } else {
      Hit(next, names[1..], b, n, i, m);
    }
  }

  /** The value written by the first pass is hit again at the latest by the last one. */
  lemma HitTwice(segs: seq<Segment>, names: seq<string>, b: string, n: nat, i: nat)
    requires |names| >= 2 && b == names[|names| - 1]
    requires i < |segs| - 1 && EndsWith(segs[i].core, Opening(names[0]))
    ensures |Passes(segs, names, b, n)| == |segs| && Passes(segs, names, b, n)[i + 1].pad >= segs[i + 1].pad + 2 * n
  {
    var next := Pass(segs, 0, names[0], b, n);
    PassAt(segs, 0, names[0], b, n, i);
    PassAt(segs, 0, names[0], b, n, i + 1);
    var kept := segs[i].core[..|segs[i].core| - |Opening(names[0])|];
    assert next[i].core == kept + Opening(b);
    assert (kept + Opening(b))[|kept|..] == Opening(b);
    assert b == names[1..][|names| - 2];
    Hit(next, names[1..], b, n, i, b);
  }

  // ----- the input as segments

  /** What closes each segment of the input: a reference, or a brace of its own. */
  function Closers(ps: seq<Piece>): seq<Option<string>> {
    if ps == [] then []
    else match ps[0]
      case Ref(name) => [Some(name)] + Closers(ps[1..])
      case Lit(c) => if c == '}' then [None] + Closers(ps[1..]) else Closers(ps[1..])
  }

  function Cut(ps: seq<Piece>): (segs: seq<Segment>)
    ensures |segs| == |Closers(ps)| + 1
  {
    if ps == [] then [Segment(0, "")]
    else
      var rest := Cut(ps[1..]);
      match ps[0]
      case Ref(name) => [Segment(0, Opening(name))] + rest
      case Lit(c) => if c == '}' then [Segment(0, "")] + rest else [Segment(0, [c] + rest[0].core)] + rest[1..]
  }

  ghost predicate RightlyCut(ps: seq<Piece>) {
    var segs, closers := Cut(ps), Closers(ps);
    && (forall i | 0 <= i < |segs| :: segs[i].pad == 0 && '}' !in segs[i].core)
    && (forall i | 0 <= i < |closers| && closers[i].Some? :: EndsWith(segs[i].core, Opening(closers[i].value)))
  }

  lemma {:induction false} CutIsRight(ps: seq<Piece>)
    requires forall i | 0 <= i < |ps| && ps[i].Ref? :: IsName(ps[i].name)
    ensures RightlyCut(ps)
    decreases |ps|
  {
    if ps != [] {
      CutIsRight(ps[1..]);
      var segs, closers, rest := Cut(ps), Closers(ps), Cut(ps[1..]);
      if ps[0].Ref? || ps[0].c == '}' {
        assert forall i | 0 < i < |segs| :: segs[i] == rest[i - 1];
        assert forall i | 0 < i < |closers| :: closers[i] == Closers(ps[1..])[i - 1];
      } else {
        assert forall i | 0 < i < |segs| :: segs[i] == rest[i];
        if closers != [] && closers[0].Some? {
          LongerEnd(ps[0].c, rest[0].core, Opening(closers[0].value));
        }
      }
    }
  }

  lemma LongerEnd(c: char, u: string, end: string)
    requires EndsWith(u, end)
    ensures EndsWith([c] + u, end)
  {
    assert ([c] + u)[|u| + 1 - |end|..] == u[|u| - |end|..];
  }

  lemma {:induction false} CutText(ps: seq<Piece>)
    requires RightlyCut(ps) && forall i | 0 <= i < |ps| && ps[i].Ref? :: IsName(ps[i].name)
    ensures Text(Cut(ps)) == Render(ps, map[], {})
    decreases |ps|
  {
    if ps != [] {
      CutIsRight(ps[1..]);
      CutText(ps[1..]);
      var segs, rest := Cut(ps), Cut(ps[1..]);
      if ps[0].Ref? || ps[0].c == '}' {
        assert segs[1..] == rest;
        assert Xs(0) + segs[0].core == segs[0].core;
      } else {
        assert segs[1..] == rest[1..];
        assert Xs(0) + segs[0].core == [ps[0].c] + (Xs(0) + rest[0].core);
        if |segs| > 1 {
          Regroup([ps[0].c], Xs(0) + rest[0].core, "}" + Text(rest[1..]));
          Regroup(Xs(0) + segs[0].core, "}", Text(segs[1..]));
          Regroup(Xs(0) + rest[0].core, "}", Text(rest[1..]));
        }
      }
    }
  }

  lemma {:induction false} CapturesOf(ps: seq<Piece>)
    ensures forall i | 0 <= i < |Closers(ps)| && Closers(ps)[i].Some? :: Closers(ps)[i].value in Captures(ps)
    ensures Captures(ps) != [] ==> exists i | 0 <= i < |Closers(ps)| :: Closers(ps)[i] == Some(Captures(ps)[0])
    decreases |ps|
  {
    if ps != [] {
      CapturesOf(ps[1..]);
      var rest := Closers(ps[1..]);
      if ps[0].Ref? {
        assert Closers(ps)[0] == Some(Captures(ps)[0]);
      } else if Captures(ps) != [] {
        var i :| 0 <= i < |rest| && rest[i] == Some(Captures(ps)[0]);
        assert Closers(ps)[if ps[0].c == '}' then i + 1 else i] == Some(Captures(ps)[0]);
      }
    }
  }

  // ----- the lengths

  function References(closers: seq<Option<string>>): nat {
    if closers == [] then 0 else (if closers[0].Some? then 1 else 0) + References(closers[1..])
  }

  /** Each segment behind a reference is padded once, and the one behind position `twice` two times. */
  predicate Padded(closers: seq<Option<string>>, segs: seq<Segment>, n: nat, twice: int) {
    && |segs| == |closers| + 1
    && (forall i | 0 <= i < |closers| && closers[i].Some? :: segs[i + 1].pad >= n)
    && (0 <= twice < |closers| ==> closers[twice].Some? && segs[twice + 1].pad >= 2 * n)
  }

  lemma {:induction false} PaddedIsLong(closers: seq<Option<string>>, segs: seq<Segment>, n: nat, twice: int)
    requires Padded(closers, segs, n, twice)
    ensures |Text(segs)| >= n * (References(closers) + if 0 <= twice < |closers| then 1 else 0) + segs[0].pad
    decreases |closers|
  {
    if closers != [] {
      var rest := segs[1..];
      forall i | 0 <= i < |closers| - 1 && closers[1..][i].Some? ensures rest[i + 1].pad >= n {
        assert closers[i + 1].Some? && segs[i + 1 + 1].pad >= n;
      }
      PaddedIsLong(closers[1..], rest, n, twice - 1);
      var k, t := References(closers[1..]), if 0 <= twice - 1 < |closers| - 1 then 1 else 0;
      var k', t' := References(closers), if 0 <= twice < |closers| then 1 else 0;
      assert k' + t' == k + t + (if closers[0].Some? then 1 else 0) + (if twice == 0 then 1 else 0);
      Distribute(n, k + t, k' + t');
    }
  }

  lemma Distribute(n: nat, a: nat, b: nat)
    ensures a == b ==> n * b == n * a
    ensures b == a + 1 ==> n * b == n * a + n
    ensures b == a + 2 ==> n * b == n * a + 2 * n
  {
  }

  /** The length of the substituted text without the paddings. */
  function Bare(ps: seq<Piece>, b: string): nat {
    if ps == [] then 0 else (if ps[0].Ref? then |Reference(b)| else 1) + Bare(ps[1..], b)
  }

  lemma {:induction false} SubstituteLength(ps: seq<Piece>, b: string, n: nat, env: Env)
    requires forall i | 0 <= i < |ps| && ps[i].Ref? :: Value(env, ps[i].name) == Bait(b, n)
    ensures |Substitute(ps, env)| == Bare(ps, b) + n * References(Closers(ps))
    decreases |ps|
  {
    if ps != [] {
      SubstituteLength(ps[1..], b, n, env);
      Distribute(n, References(Closers(ps[1..])), References(Closers(ps)));
    }
  }

  predicate RefsIn(ps: seq<Piece>, names: seq<string>) {
    forall i | 0 <= i < |ps| && ps[i].Ref? :: ps[i].name in names
  }

  /** The captures are the names of the references. */
  lemma CapturedNames(ps: seq<Piece>)
    requires forall i | 0 <= i < |ps| && ps[i].Ref? :: IsName(ps[i].name)
    ensures RefsIn(ps, Captures(ps))
    ensures forall m | m in Captures(ps) :: IsName(m)
    ensures PlainNames(ps) ==> AllPlain(Captures(ps))
  {
    forall m | m in Captures(ps) ensures IsName(m) && (PlainNames(ps) ==> '$' !in m) {
      CapturesAreRefs(ps, m);
      var i :| 0 <= i < |ps| && ps[i] == Ref(m);
    }
    forall i | 0 <= i < |ps| && ps[i].Ref? ensures ps[i].name in Captures(ps) {
      CapturesAreRefs(ps, ps[i].name);
    }
  }

  predicate AllPlain(names: seq<string>) {
    forall n | n in names :: IsName(n) && '$' !in n
  }

  /** Sequential replacement of the input, on its segments. */
  lemma InputAsSegments(input: string, ps: seq<Piece>, names: seq<string>, b: string, n: nat, env: Env)
    requires ps == Lex(input) && IsName(b)
    requires forall m | m in names :: IsName(m) && Value(env, m) == Bait(b, n)
    ensures RightlyCut(ps) && Passes(Cut(ps), names, b, n) != []
    ensures ReplaceEach(input, names, env) == Text(Passes(Cut(ps), names, b, n))
  {
    CutIsRight(ps);
    CutText(ps);
    RenderLex(input, map[]);
    PassesReplace(Cut(ps), names, b, n, env);
  }

  lemma SegmentsAreLong(ps: seq<Piece>, names: seq<string>, b: string, n: nat)
    requires RightlyCut(ps) && names == Captures(ps) && |names| >= 2 && b == names[|names| - 1]
    requires Passes(Cut(ps), names, b, n) != []
    ensures |Text(Passes(Cut(ps), names, b, n))| >= n * (References(Closers(ps)) + 1)
  {
    var first := AllPadded(ps, names, b, n);
    PaddedIsLong(Closers(ps), Passes(Cut(ps), names, b, n), n, first);
  }

  /** With two or more references some environment makes the results differ, whatever the names contain. */
  lemma TwoReferencesFail(input: string) returns (env: Env)
    requires |Captures(Lex(input))| >= 2
    ensures ReplaceEach(input, Captures(Lex(input)), env) != Substitute(Lex(input), env)
  {
    var ps := Lex(input);
    var names := Captures(ps);
    var b := names[|names| - 1];
    var n := Bare(ps, b) + 1;
    CapturedNames(ps);
    assert b in names;
    env := map m | m in names :: Bait(b, n);
    InputAsSegments(input, ps, names, b, n, env);
    SegmentsAreLong(ps, names, b, n);
    SubstituteLength(ps, b, n, env);
    Distribute(n, References(Closers(ps)), References(Closers(ps)) + 1);
  }

  lemma AllPadded(ps: seq<Piece>, names: seq<string>, b: string, n: nat) returns (first: nat)
    requires RightlyCut(ps) && names == Captures(ps) && |names| >= 2 && b == names[|names| - 1]
    ensures first < |Closers(ps)| && Padded(Closers(ps), Passes(Cut(ps), names, b, n), n, first)
  {
    var closers, cut := Closers(ps), Cut(ps);
    CapturesOf(ps);
    first :| 0 <= first < |closers| && closers[first] == Some(names[0]);
    HitTwice(cut, names, b, n, first);
    forall i | 0 <= i < |closers| && closers[i].Some? ensures Passes(cut, names, b, n)[i + 1].pad >= n {
      Hit(cut, names, b, n, i, closers[i].value);
    }
  }

  lemma NoReference(input: string, env: Env)
    requires Captures(Lex(input)) == []
    ensures ReplaceEach(input, Captures(Lex(input)), env) == Substitute(Lex(input), env)
  {
    NothingToReplace(input, "x", "");
    NoRefsSubstitute(Lex(input), env);
  }

  ghost predicate SafeEverywhere(input: string) {
    forall env: Env :: ReplaceEach(input, Captures(Lex(input)), env) == Substitute(Lex(input), env)
  }

  /** An input expands as documented in every environment exactly when it holds at most one reference. */
  lemma SafeInEveryEnvironmentIff(input: string)
    ensures SafeEverywhere(input) <==> |Captures(Lex(input))| <= 1
  {
    if |Captures(Lex(input))| <= 1 {
      forall env: Env ensures ReplaceEach(input, Captures(Lex(input)), env) == Substitute(Lex(input), env) {
        if Captures(Lex(input)) == [] {
          NoReference(input, env);
        } else {
          SingleReference(input, env);
        }
      }
    } else {
      var env := TwoReferencesFail(input);
    }
  }

  // ----- exactly when every environment without `$` in its values is safe

  /**
   With names and values that hold no `$`, every replacement takes exactly one `$` away. The references take
   theirs, so the two results differ as soon as a literal `$` is taken too.
   */
  function Dollars(s: string): nat {
    if s == "" then 0 else (if s[0] == '$' then 1 else 0) + Dollars(s[1..])
  }

  function LiteralDollars(ps: seq<Piece>): nat {
    if ps == [] then 0 else (if ps[0] == Lit('$') then 1 else 0) + LiteralDollars(ps[1..])
  }

  /** The `$` left in a text when all names have been replaced. */
  function Left(s: string, names: seq<string>, env: Env): nat {
    Dollars(ReplaceEach(s, names, env))
  }

  lemma {:induction false} DollarsBehind(v: string, t: string)
    requires '$' !in v
    ensures Dollars(v + t) == Dollars(t)
    decreases |v|
  {
    if v == "" {
      assert v + t == t;
    } else {
      DollarsBehind(v[1..], t);
      assert (v + t)[1..] == v[1..] + t;
    }
  }

  lemma {:induction false} PlainPassesThrough(v: string, t: string, names: seq<string>, env: Env)
    requires '$' !in v
    ensures ReplaceEach(v + t, names, env) == v + ReplaceEach(t, names, env)
    ensures Left(v + t, names, env) == Left(t, names, env)
    decreases |names|
  {
    if names != [] {
      SkipPlain(v, t, names[0], Value(env, names[0]));
      PlainPassesThrough(v, ReplaceAll(t, Reference(names[0]), Value(env, names[0])), names[1..], env);
    } else {
      DollarsBehind(v, t);
    }
  }

  /** Whether its `$` is taken or not, a match at the front does not change what is left behind it. */
  lemma DollarTaken(t: string, names: seq<string>, env: Env)
    requires names != [] && AllPlain(names) && CleanValues(env) && Reference(names[0]) <= "$" + t
    ensures Left("$" + t, names, env) == Left(t, names, env)
  {
    var n, with := names[0], Value(env, names[0]);
    var inner, x := "{" + n + "}", t[|n| + 2..];
    var s := "$" + t;
    assert n in names;
    assert s == Reference(n) + s[|Reference(n)|..] && s[|Reference(n)|..] == x;
    assert t == s[1..] == inner + x;
    var x' := ReplaceAll(x, Reference(n), with);
    ReplaceHere(n, x, with);
    SkipPlain(inner, x, n, with);
    PlainPassesThrough(with, x', names[1..], env);
    PlainPassesThrough(inner, x', names[1..], env);
  }

  lemma {:induction false} DollarAddsAtMostOne(t: string, names: seq<string>, env: Env)
    requires AllPlain(names) && CleanValues(env)
    ensures Left("$" + t, names, env) <= 1 + Left(t, names, env)
    decreases |names|
  {
    var s := "$" + t;
    assert s[1..] == t;
    if names != [] {
      if Reference(names[0]) <= s {
        DollarTaken(t, names, env);
      } else {
        DollarAddsAtMostOne(ReplaceAll(t, Reference(names[0]), Value(env, names[0])), names[1..], env);
      }
    }
  }

  /** A reference leaves no `$`. */
  lemma {:induction false} ReferenceTaken(b: string, t: string, names: seq<string>, env: Env)
    requires AllPlain(names) && CleanValues(env) && b in names
    ensures Left(Reference(b) + t, names, env) == Left(t, names, env)
    decreases |names|
  {
    var n, with := names[0], Value(env, names[0]);
    var t' := ReplaceAll(t, Reference(n), with);
    if n == b {
      ReplaceHere(b, t, with);
      PlainPassesThrough(with, t', names[1..], env);
    } else {
      OtherReferenceKept(b, t, n, with);
      ReferenceTaken(b, t', names[1..], env);
    }
  }

  /** Neither does a literal `$` before a reference whose value makes it the opening of the last one. */
  lemma {:induction false} StrayTaken(a: string, t: string, names: seq<string>, env: Env)
    requires AllPlain(names) && CleanValues(env) && a in Early(names)
    requires Value(env, a) == "{" + names[|names| - 1] + "}"
    ensures Left("$" + (Reference(a) + t), names, env) == Left(t, names, env)
    decreases |names|
  {
    var n, with, rest := names[0], Value(env, names[0]), names[1..];
    var m := names[|names| - 1];
    var t' := ReplaceAll(t, Reference(n), with);
    assert n in names && a in names;
    assert rest[|rest| - 1] == m;
    KeepOne('$', Reference(a) + t, n, with);
    if n == a {
      ReplaceHere(a, t, with);
      ReferenceSplits(m, t');
      ReferenceTaken(m, t', rest, env);
    } else {
      OtherReferenceKept(a, t, n, with);
      var i :| 0 <= i < |names| - 1 && names[i] == a;
      assert rest[i - 1] == a;
      StrayTaken(a, t', rest, env);
    }
  }

  /** What one piece adds to the `$` that are left. */
  lemma PieceAdds(ps: seq<Piece>, names: seq<string>, env: Env)
    requires ps != [] && RefsIn(ps, names) && AllPlain(names) && CleanValues(env)
    ensures Left(Render(ps, env, {}), names, env)
            <= (if ps[0] == Lit('$') then 1 else 0) + Left(Render(ps[1..], env, {}), names, env)
  {
    var rest := Render(ps[1..], env, {});
    match ps[0]
    case Ref(b) => ReferenceTaken(b, rest, names, env);
    case Lit(c) =>
      if c == '$' {
        DollarAddsAtMostOne(rest, names, env);
      } else {
        PlainPassesThrough([c], rest, names, env);
      }
  }

  lemma {:induction false} AtMostLiterals(ps: seq<Piece>, names: seq<string>, env: Env)
    requires RefsIn(ps, names) && AllPlain(names) && CleanValues(env)
    ensures Left(Render(ps, env, {}), names, env) <= LiteralDollars(ps)
    decreases |ps|
  {
    if ps == [] {
      NothingLeft(names, env);
    } else {
      PieceAdds(ps, names, env);
      AtMostLiterals(ps[1..], names, env);
    }
  }

  lemma {:induction false} NothingLeft(names: seq<string>, env: Env)
    ensures ReplaceEach("", names, env) == ""
    decreases |names|
  {
    if names != [] {
      NothingLeft(names[1..], env);
    }
  }

  lemma {:induction false} StrayCostsOne(ps: seq<Piece>, i: nat, a: string, names: seq<string>, env: Env)
    requires RefsIn(ps, names) && AllPlain(names) && CleanValues(env)
    requires i + 1 < |ps| && ps[i] == Lit('$') && ps[i + 1] == Ref(a) && a in Early(names)
    requires Value(env, a) == "{" + names[|names| - 1] + "}"
    ensures Left(Render(ps, env, {}), names, env) < LiteralDollars(ps)
    decreases |ps|
  {
    if i == 0 {
      var rest := ps[2..];
      assert ps[1..][0] == Ref(a) && ps[1..][1..] == rest;
      assert Render(ps[1..], env, {}) == Reference(a) + Render(rest, env, {});
      StrayTaken(a, Render(rest, env, {}), names, env);
      AtMostLiterals(rest, names, env);
      assert LiteralDollars(ps[1..]) == LiteralDollars(rest);
    } else {
      PieceAdds(ps, names, env);
      StrayCostsOne(ps[1..], i - 1, a, names, env);
    }
  }

  lemma {:induction false} SubstituteDollars(ps: seq<Piece>, env: Env)
    requires CleanValues(env)
    ensures Dollars(Substitute(ps, env)) == LiteralDollars(ps)
    decreases |ps|
  {
    if ps != [] {
      var rest := Substitute(ps[1..], env);
      SubstituteDollars(ps[1..], env);
      match ps[0]
      case Ref(b) => DollarsBehind(Value(env, b), rest);
      case Lit(c) => assert ([c] + rest)[1..] == rest;
    }
  }

  lemma ResultsDiffer(input: string, ps: seq<Piece>, names: seq<string>, i: nat, a: string, env: Env)
    requires ps == Lex(input) && names == Captures(ps) && RefsIn(ps, names) && AllPlain(names) && CleanValues(env)
    requires i + 1 < |ps| && ps[i] == Lit('$') && ps[i + 1] == Ref(a) && a in Early(names)
    requires Value(env, a) == "{" + names[|names| - 1] + "}"
    ensures ReplaceEach(input, names, env) != Substitute(ps, env)
  {
    RenderLex(input, env);
    StrayCostsOne(ps, i, a, names, env);
    SubstituteDollars(ps, env);
  }

  /** A literal `$` before a reference that is not the last: some environment without `$` makes the results differ. */
  lemma StrayDollarFails(input: string) returns (env: Env)
    requires PlainNames(Lex(input)) && !Guarded(Lex(input), Early(Captures(Lex(input))))
    ensures CleanValues(env)
    ensures ReplaceEach(input, Captures(Lex(input)), env) != Substitute(Lex(input), env)
  {
    var ps := Lex(input);
    var names := Captures(ps);
    CapturedNames(ps);
    var i :| 0 <= i < |ps| && ps[i] == Lit('$') && Follows(ps, i).Ref? && Follows(ps, i).name in Early(names);
    var a, m := Follows(ps, i).name, names[|names| - 1];
    assert m in names;
    env := map[a := "{" + m + "}"];
    assert '$' !in env[a];
    ResultsDiffer(input, ps, names, i, a, env);
  }

  ghost predicate SafeInPlainEnvironments(input: string) {
    forall env: Env | CleanValues(env) ::
      ReplaceEach(input, Captures(Lex(input)), env) == Substitute(Lex(input), env)
  }

  /**
   For names without `$`: the input expands as documented in every environment whose values hold no `$`
   exactly when no literal `$` stands directly before a reference that is captured before the last capture.
   */
  lemma SafeInPlainEnvironmentsIff(input: string)
    requires PlainNames(Lex(input))
    ensures SafeInPlainEnvironments(input) <==> Guarded(Lex(input), Early(Captures(Lex(input))))
  {
    if Guarded(Lex(input), Early(Captures(Lex(input)))) {
      forall env: Env | CleanValues(env)
        ensures ReplaceEach(input, Captures(Lex(input)), env) == Substitute(Lex(input), env)
      {
        SequentialIsSimultaneous(input, env);
      }
    } else {
      var env := StrayDollarFails(input);
    }
  }
}
