/**
 `expand_env_vars`: the names matched by `\$\{([^}]+)\}` in the input are replaced one after the
 other in the whole text. The reference is a simultaneous substitution, made in one pass over the
 input.
 */
module EnvExpansion {
  import opened Base

  type Env = map<string, string>

  /** An unset variable is empty. */
  function Value(env: Env, name: string): string {
    if name in env then env[name] else ""
  }

  function Reference(name: string): string {
    "${" + name + "}"
  }

  // ----- the regular expression

  /** Index of the first `c` in `s` at or after `from`, or |s|. */
  function IndexOf(s: string, c: char, from: nat): (i: nat)
    requires from <= |s|
    ensures from <= i <= |s|
    ensures forall k | from <= k < i :: s[k] != c
    ensures i < |s| ==> s[i] == c
    decreases |s| - from
  {
    if from == |s| || s[from] == c then from else IndexOf(s, c, from + 1)
  }

  /** The name captured by a match at the start of `s`. */
  function MatchHere(s: string): (m: Option<string>)
    ensures m.Some? ==> IsName(m.value) && Reference(m.value) <= s
  {
    if |s| >= 2 && s[..2] == "${" then
      var close := IndexOf(s, '}', 2);
      if close < |s| && close > 2 then
        assert s[..close + 1] == Reference(s[2..close]);
        Some(s[2..close])
      else None
    else None
  }

  predicate IsName(name: string) {
    name != "" && '}' !in name
  }

  datatype Piece = Lit(c: char) | Ref(name: string)

  /** The input cut into references and single characters, leftmost matches first. */
  function Lex(s: string): (ps: seq<Piece>)
    ensures forall i | 0 <= i < |ps| && ps[i].Ref? :: IsName(ps[i].name)
    decreases |s|
  {
    if s == "" then []
    else match MatchHere(s)
      case Some(name) => [Ref(name)] + Lex(s[|Reference(name)|..])
      case None => [Lit(s[0])] + Lex(s[1..])
  }

  /** The captures in order of appearance. */
  function Captures(ps: seq<Piece>): seq<string> {
    if ps == [] then []
    else if ps[0].Ref? then [ps[0].name] + Captures(ps[1..])
    else Captures(ps[1..])
  }

  // ----- the code

  /** `str::replace`. */
  function ReplaceAll(s: string, pattern: string, with: string): string
    requires pattern != ""
    decreases |s|
  {
    if s == "" then ""
    else if pattern <= s then with + ReplaceAll(s[|pattern|..], pattern, with)
    else [s[0]] + ReplaceAll(s[1..], pattern, with)
  }

  function ReplaceEach(s: string, names: seq<string>, env: Env): string
    decreases |names|
  {
    if names == [] then s
    else ReplaceEach(ReplaceAll(s, Reference(names[0]), Value(env, names[0])), names[1..], env)
  }

  /** The loop of the source. */
  method ExpandEnvVars(input: string, env: Env) returns (result: string)
    ensures result == ReplaceEach(input, Captures(Lex(input)), env)
  {
    result := input;
    var captures := Captures(Lex(input));
    for i := 0 to |captures|
      invariant ReplaceEach(input, captures, env) == ReplaceEach(result, captures[i..], env)
    {
      var name := captures[i];
      result := ReplaceAll(result, Reference(name), Value(env, name));
      assert captures[i..][1..] == captures[i + 1..];
    }
  }

  // ----- the reference

  function Substitute(ps: seq<Piece>, env: Env): string {
    if ps == [] then ""
    else (match ps[0] case Lit(c) => [c] case Ref(name) => Value(env, name)) + Substitute(ps[1..], env)
  }

  predicate PlainNames(ps: seq<Piece>) {
    forall i | 0 <= i < |ps| && ps[i].Ref? :: '$' !in ps[i].name && IsName(ps[i].name)
  }

  /** A literal `$` stands directly before a reference only if that one is not replaced yet. */
  predicate Guarded(ps: seq<Piece>, done: set<string>) {
    forall i | 0 <= i < |ps| && ps[i] == Lit('$') && Follows(ps, i).Ref? :: Follows(ps, i).name !in done
  }

  /** The piece after position `i`; the end counts as a literal. */
  function Follows(ps: seq<Piece>, i: nat): Piece {
    if i + 1 < |ps| then ps[i + 1] else Lit(' ')
  }

  /** The names that have another capture after them. */
  function Early(names: seq<string>): set<string> {
    set i | 0 <= i < |names| - 1 :: names[i]
  }

  /**
   No name holds a `$`, and a literal `$` stands directly before a reference only if its name is captured
   there for the first time and no capture follows.
   */
  predicate Clean(ps: seq<Piece>) {
    PlainNames(ps) && Guarded(ps, Early(Captures(ps)))
  }

  predicate CleanValues(env: Env) {
    forall name | name in env :: '$' !in env[name]
  }

  // ----- literal openings

  predicate NoClosing(ps: seq<Piece>) {
    forall p | p in ps :: p.Lit? && p.c != '}'
  }

  /** A literal `${` at position `i` is followed by `}`, or by no closing brace at all. */
  predicate DeadOpening(ps: seq<Piece>, i: nat) {
    i + 1 < |ps| && ps[i] == Lit('$') && ps[i + 1] == Lit('{') ==>
      Follows(ps, i + 1) == Lit('}') || NoClosing(ps[i + 2..])
  }

  predicate Lexed(ps: seq<Piece>) {
    forall i | 0 <= i < |ps| :: DeadOpening(ps, i)
  }

  lemma {:induction false} LexNoClosing(s: string)
    requires '}' !in s
    ensures NoClosing(Lex(s))
    decreases |s|
  {
    if s != "" {
      LexNoClosing(s[1..]);
    }
  }

  lemma LexedTail(ps: seq<Piece>, i: nat)
    requires ps != [] && i < |ps| - 1
    ensures DeadOpening(ps[1..], i) <==> DeadOpening(ps, i + 1)
  {
    if i + 2 < |ps| {
      assert ps[1..][i + 2..] == ps[i + 3..];
    }
  }

  lemma LexedHead(s: string)
    requires s != ""
    ensures DeadOpening(Lex(s), 0)
  {
    var ps := Lex(s);
    if |ps| >= 2 && ps[0] == Lit('$') && ps[1] == Lit('{') {
      assert MatchHere(s).None? && ps[1..] == Lex(s[1..]);
      assert s[..2] == "${";
      var rest := s[2..];
      assert s[1..][1..] == rest && ps[2..] == Lex(rest);
      if IndexOf(s, '}', 2) == |s| {
        assert '}' !in rest;
        LexNoClosing(rest);
      } else {
        assert rest[0] == '}' && MatchHere(rest).None?;
        assert ps[2] == Lex(rest)[0] == Lit('}');
      }
    }
  }

  /** An opening that the regular expression passed over cannot be completed by a later pass either. */
  lemma {:induction false} LexIsLexed(s: string)
    ensures Lexed(Lex(s))
    decreases |s|
  {
    if s != "" {
      var ps := Lex(s);
      var rest := if MatchHere(s).Some? then s[|Reference(MatchHere(s).value)|..] else s[1..];
      assert ps[1..] == Lex(rest);
      LexIsLexed(rest);
      LexedHead(s);
      forall i | 0 <= i < |ps| ensures DeadOpening(ps, i) {
        if i > 0 {
          LexedTail(ps, i - 1);
          assert DeadOpening(Lex(rest), i - 1);
        }
      }
    }
  }

  // ----- partial expansion

  function RenderPiece(p: Piece, env: Env, done: set<string>): string {
    match p
    case Lit(c) => [c]
    case Ref(name) => if name in done then Value(env, name) else Reference(name)
  }

  /** The text when the names in `done` have been replaced. */
  function Render(ps: seq<Piece>, env: Env, done: set<string>): string {
    if ps == [] then "" else RenderPiece(ps[0], env, done) + Render(ps[1..], env, done)
  }

  lemma {:induction false} RenderLex(s: string, env: Env)
    ensures Render(Lex(s), env, {}) == s
    decreases |s|
  {
    if s != "" {
      match MatchHere(s)
      case Some(name) =>
        var rest := s[|Reference(name)|..];
        RenderLex(rest, env);
        assert Lex(s)[1..] == Lex(rest);
        assert s == Reference(name) + rest;
      case None =>
        RenderLex(s[1..], env);
        assert Lex(s)[1..] == Lex(s[1..]);
    }
  }

  /** Text without `$` is passed over. */
  lemma {:induction false} SkipPlain(v: string, rest: string, name: string, with: string)
    requires '$' !in v
    ensures ReplaceAll(v + rest, Reference(name), with) == v + ReplaceAll(rest, Reference(name), with)
    decreases |v|
  {
    if v == "" {
      assert v + rest == rest;
    } else {
      SkipPlain(v[1..], rest, name, with);
      assert (v + rest)[1..] == v[1..] + rest;
      assert (v + rest)[0] != '$';
      assert Reference(name)[0] == '$';
    }
  }

  lemma ReferenceMatches(name: string, rest: string)
    requires IsName(name)
    ensures MatchHere(Reference(name) + rest) == Some(name)
  {
    var s := Reference(name) + rest;
    assert s[..2] == "${";
    var close := IndexOf(s, '}', 2);
    assert s[|name| + 2] == '}';
    assert forall k | 2 <= k < |name| + 2 :: s[k] == name[k - 2];
    assert close == |name| + 2;
    assert s[2..close] == name;
  }

  /** Two references that begin the same text are the same. */
  lemma ReferenceUnique(a: string, b: string, rest: string)
    requires IsName(a) && IsName(b)
    ensures Reference(a) <= Reference(b) + rest ==> a == b
  {
    var s := Reference(b) + rest;
    ReferenceMatches(b, rest);
    if Reference(a) <= s {
      ReferenceMatches(a, s[|Reference(a)|..]);
      assert s == Reference(a) + s[|Reference(a)|..];
    }
  }

  /** A reference to another name stays. */
  lemma OtherReferenceKept(other: string, rest: string, name: string, with: string)
    requires IsName(other) && IsName(name) && '$' !in other && other != name
    ensures ReplaceAll(Reference(other) + rest, Reference(name), with)
            == Reference(other) + ReplaceAll(rest, Reference(name), with)
  {
    var s := Reference(other) + rest;
    ReferenceUnique(name, other, rest);
    var tail := "{" + other + "}";
    assert s[1..] == tail + rest;
    SkipPlain(tail, rest, name, with);
    assert Reference(other) == ['$'] + tail;
    assert ReplaceAll(s, Reference(name), with) == ['$'] + ReplaceAll(tail + rest, Reference(name), with);
  }

  lemma {:induction false} RenderNoClosing(ps: seq<Piece>, env: Env, done: set<string>)
    requires NoClosing(ps)
    ensures '}' !in Render(ps, env, done)
    decreases |ps|
  {
    if ps != [] {
      assert ps[0] in ps;
      RenderNoClosing(ps[1..], env, done);
    }
  }

  /** A literal `${` never begins a reference. */
  lemma OpeningKept(ps: seq<Piece>, env: Env, done: set<string>, name: string)
    requires |ps| >= 2 && ps[0] == Lit('$') && ps[1] == Lit('{') && Lexed(ps) && IsName(name)
    ensures !(Reference(name) <= Render(ps, env, done))
  {
    var s := Render(ps, env, done);
    var tail := Render(ps[2..], env, done);
    assert ps[1..][0] == ps[1] && ps[1..][1..] == ps[2..];
    assert Render(ps[1..], env, done) == ['{'] + tail;
    assert s == ['$'] + (['{'] + tail);
    assert DeadOpening(ps, 0);
    if Follows(ps, 1) == Lit('}') && |ps| > 2 {
      assert ps[2..][0] == ps[2];
      assert s[2] == tail[0] == '}';
      assert Reference(name)[2] == name[0];
    } else {
      RenderNoClosing(ps[2..], env, done);
      assert Reference(name)[|name| + 2] == '}';
      assert forall i | 2 <= i < |s| :: s[i] == tail[i - 2];
    }
  }

  /** A literal character stays: the pattern cannot begin at it. */
  lemma LiteralKept(ps: seq<Piece>, env: Env, done: set<string>, name: string)
    requires ps != [] && ps[0].Lit? && Guarded(ps, done) && Lexed(ps) && IsName(name)
    ensures var rest := Render(ps[1..], env, done);
            ReplaceAll([ps[0].c] + rest, Reference(name), Value(env, name))
            == [ps[0].c] + ReplaceAll(rest, Reference(name), Value(env, name))
  {
    var rest := Render(ps[1..], env, done);
    var s := [ps[0].c] + rest;
    assert s[1..] == rest;
    if ps[0].c != '$' {
      assert s[0] != Reference(name)[0];
    } else if |ps| > 1 {
      assert ps[0] == Lit('$') && Follows(ps, 0) == ps[1];
      assert ps[1..][0] == ps[1];
      if ps[1] == Lit('{') {
        OpeningKept(ps, env, done, name);
      } else {
        assert s[1] != '{' == Reference(name)[1];
      }
    }
  }

  lemma TailKeeps(ps: seq<Piece>, done: set<string>)
    requires PlainNames(ps) && Guarded(ps, done) && Lexed(ps) && ps != []
    ensures PlainNames(ps[1..]) && Guarded(ps[1..], done) && Lexed(ps[1..])
  {
    var rest := ps[1..];
    forall i | 0 <= i < |rest| ensures rest[i] == ps[i + 1] && Follows(rest, i) == Follows(ps, i + 1) {
    }
    forall i | 0 <= i < |rest| ensures DeadOpening(rest, i) {
      LexedTail(ps, i);
      assert DeadOpening(ps, i + 1);
    }
  }

  /** Replacing one name everywhere completes exactly that name. */
  lemma {:induction false} ReplaceCompletes(ps: seq<Piece>, env: Env, done: set<string>, name: string)
    requires PlainNames(ps) && Guarded(ps, done) && Lexed(ps) && CleanValues(env) && IsName(name)
    ensures ReplaceAll(Render(ps, env, done), Reference(name), Value(env, name)) == Render(ps, env, done + {name})
    decreases |ps|
  {
    if ps != [] {
      var with := Value(env, name);
      var rest := Render(ps[1..], env, done);
      TailKeeps(ps, done);
      ReplaceCompletes(ps[1..], env, done, name);
      match ps[0]
      case Lit(c) =>
        LiteralKept(ps, env, done, name);
      case Ref(other) =>
        if other in done {
          SkipPlain(Value(env, other), rest, name, with);
        } else if other == name {
          assert (Reference(name) + rest)[|Reference(name)|..] == rest;
        } else {
          OtherReferenceKept(other, rest, name, with);
        }
    }
  }

  lemma {:induction false} ReplaceEachCompletes(ps: seq<Piece>, env: Env, done: set<string>, names: seq<string>)
    requires PlainNames(ps) && Guarded(ps, done + Early(names)) && Lexed(ps) && CleanValues(env)
    requires forall n | n in names :: IsName(n)
    ensures ReplaceEach(Render(ps, env, done), names, env) == Render(ps, env, done + set n | n in names)
    decreases |names|
  {
    if names == [] {
      assert done + (set n | n in names) == done;
    } else {
      var rest := names[1..];
      var next := Render(ps, env, done + {names[0]});
      assert Guarded(ps, done);
      ReplaceCompletes(ps, env, done, names[0]);
      if rest != [] {
        assert names[0] in Early(names);
        assert forall i | 0 <= i < |rest| - 1 :: rest[i] == names[i + 1] && names[i + 1] in Early(names);
        ReplaceEachCompletes(ps, env, done + {names[0]}, rest);
      } else {
        assert ReplaceEach(next, rest, env) == next;
        assert (set n | n in rest) == {};
        assert done + {names[0]} == done + {names[0]} + {};
      }
      assert done + {names[0]} + (set n | n in rest) == done + set n | n in names;
    }
  }

  lemma {:induction false} CapturesAreRefs(ps: seq<Piece>, name: string)
    ensures name in Captures(ps) <==> Ref(name) in ps
    decreases |ps|
  {
    if ps != [] {
      CapturesAreRefs(ps[1..], name);
      assert ps == [ps[0]] + ps[1..];
    }
  }

  lemma {:induction false} RenderAll(ps: seq<Piece>, env: Env, done: set<string>)
    requires forall i | 0 <= i < |ps| && ps[i].Ref? :: ps[i].name in done
    ensures Render(ps, env, done) == Substitute(ps, env)
    decreases |ps|
  {
    if ps != [] {
      RenderAll(ps[1..], env, done);
    }
  }

  /** Sequential replacement equals simultaneous substitution on clean inputs and values. */
  lemma SequentialIsSimultaneous(input: string, env: Env)
    requires Clean(Lex(input)) && CleanValues(env)
    ensures ReplaceEach(input, Captures(Lex(input)), env) == Substitute(Lex(input), env)
  {
    var ps := Lex(input);
    var names := Captures(ps);
    forall n ensures n in names <==> Ref(n) in ps {
      CapturesAreRefs(ps, n);
    }
    LexIsLexed(input);
    RenderLex(input, env);
    assert {} + Early(names) == Early(names);
    ReplaceEachCompletes(ps, env, {}, names);
    RenderAll(ps, env, {} + set n | n in names);
  }

  // ----- a single reference needs no condition on the environment

  lemma {:induction false} NothingToReplace(s: string, name: string, with: string)
    requires IsName(name) && Captures(Lex(s)) == []
    ensures ReplaceAll(s, Reference(name), with) == s && Substitute(Lex(s), map[]) == s
    decreases |s|
  {
    if s != "" {
      if Reference(name) <= s {
        assert s == Reference(name) + s[|Reference(name)|..];
        ReferenceMatches(name, s[|Reference(name)|..]);
      }
      assert MatchHere(s).None?;
      assert Lex(s)[1..] == Lex(s[1..]);
      NothingToReplace(s[1..], name, with);
    }
  }

  lemma {:induction false} NoRefsSubstitute(ps: seq<Piece>, env: Env)
    requires Captures(ps) == []
    ensures Substitute(ps, env) == Substitute(ps, map[])
    decreases |ps|
  {
    if ps != [] {
      NoRefsSubstitute(ps[1..], env);
    }
  }

  lemma {:induction false} SingleReplace(s: string, name: string, env: Env)
    requires Captures(Lex(s)) == [name]
    ensures IsName(name)
    ensures ReplaceAll(s, Reference(name), Value(env, name)) == Substitute(Lex(s), env)
    decreases |s|
  {
    match MatchHere(s)
    case Some(m) =>
      var rest := s[|Reference(m)|..];
      assert Lex(s)[1..] == Lex(rest);
      assert [m] + Captures(Lex(rest)) == [name];
      assert Captures(Lex(rest)) == ([m] + Captures(Lex(rest)))[1..] == [];
      assert m == ([m] + Captures(Lex(rest)))[0] == name;
      NothingToReplace(rest, name, Value(env, name));
      NoRefsSubstitute(Lex(rest), env);
    case None =>
      assert Lex(s)[1..] == Lex(s[1..]);
      SingleReplace(s[1..], name, env);
      if Reference(name) <= s {
        assert s == Reference(name) + s[|Reference(name)|..];
        ReferenceMatches(name, s[|Reference(name)|..]);
      }
  }

  /** An input with one reference expands as documented in every environment, whatever else it contains. */
  lemma SingleReference(input: string, env: Env)
    requires |Captures(Lex(input))| == 1
    ensures ReplaceEach(input, Captures(Lex(input)), env) == Substitute(Lex(input), env)
  {
    var names := Captures(Lex(input));
    assert names == [names[0]];
    SingleReplace(input, names[0], env);
    assert names[1..] == [];
  }

  function Literals(v: string): seq<Piece> {
    seq(|v|, i requires 0 <= i < |v| => Lit(v[i]))
  }

  lemma LexOne(s: string)
    requires s != "" && s[0] != '$'
    ensures Lex(s) == [Lit(s[0])] + Lex(s[1..])
  {
    if |s| >= 2 {
      assert s[..2][0] == s[0];
    }
  }

  lemma LiteralsHead(v: string, whole: seq<Piece>, tail: seq<Piece>, ps: seq<Piece>)
    requires v != "" && whole == [Lit(v[0])] + tail && tail == Literals(v[1..]) + ps
    ensures whole == Literals(v) + ps
  {
  }

  lemma {:induction false} LexLiterals(v: string, s: string, rest: string)
    requires '$' !in v && s == v + rest
    ensures Lex(s) == Literals(v) + Lex(rest)
    decreases |v|
  {
    if v == "" {
      assert s == rest && Literals(v) == [];
    } else {
      var tail := s[1..];
      assert tail == v[1..] + rest && s[0] == v[0];
      LexLiterals(v[1..], tail, rest);
      LexOne(s);
      LiteralsHead(v, Lex(s), Lex(tail), Lex(rest));
    }
  }

  lemma {:induction false} CapturesBehind(v: string, ps: seq<Piece>, env: Env)
    ensures Captures(Literals(v) + ps) == Captures(ps)
    ensures Substitute(Literals(v) + ps, env) == v + Substitute(ps, env)
    decreases |v|
  {
    if v == "" {
      assert Literals(v) + ps == ps;
    } else {
      CapturesBehind(v[1..], ps, env);
      assert (Literals(v) + ps)[1..] == Literals(v[1..]) + ps;
      assert [v[0]] + (v[1..] + Substitute(ps, env)) == v + Substitute(ps, env);
    }
  }

  /** One reference in plain text becomes its value, or nothing if the variable is not set. */
  lemma OneReferenceExpands(pre: string, name: string, post: string, env: Env)
    requires '$' !in pre && '$' !in post && IsName(name)
    ensures var input := pre + (Reference(name) + post);
            ReplaceEach(input, Captures(Lex(input)), env) == pre + ((if name in env then env[name] else "") + post)
  {
    var input := pre + (Reference(name) + post);
    LexLiterals(pre, input, Reference(name) + post);
    ReferenceMatches(name, post);
    assert (Reference(name) + post)[|Reference(name)|..] == post;
    LexLiterals(post, post, "");
    assert post + "" == post && Literals(post) + [] == Literals(post);
    CapturesBehind(post, [], env);
    var ps := [Ref(name)] + Literals(post);
    assert ps[1..] == Literals(post);
    CapturesBehind(pre, ps, env);
    assert Captures(Lex(input)) == [name];
    SingleReference(input, env);
  }
}
