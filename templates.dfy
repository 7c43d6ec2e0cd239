/**
 * The command templates of the hardware protocols are string constants built
 * by concatenating literal text and `<name>` placeholders. `Tpl` records that
 * structure; `Subst` renders a template with some placeholders already filled
 * in. The main fact, `ReplaceSubst`, says that Java's `replace` of one
 * placeholder fills exactly that placeholder, provided no substituted value
 * contains '<' (otherwise later `replace` calls could match inside it).
 */
module Templates {
  import opened JavaText

  predicate NoLt(s: string) { '<' !in s }

  /** A placeholder name that cannot run into a neighbouring placeholder. */
  predicate GoodName(h: string) { '<' !in h && '>' !in h }

  /** Literal template text: no '<', so no placeholder can start inside it. */
  type Plain = s: string | NoLt(s) witness ""

  type Name = h: string | GoodName(h) witness ""

  datatype Tpl = End | Lit(text: Plain, next: Tpl) | Hole(name: Name, next: Tpl)

  /** The placeholder text `<name>`. */
  function Arg(name: string): (r: string)
    ensures |r| == |name| + 2 && r[0] == '<' && r[|r| - 1] == '>'
  {
    "<" + name + ">"
  }

  /** Renders `t`, writing the value of each placeholder named in `env` and leaving the others literal. */
  function Subst(t: Tpl, env: map<string, string>): string
  {
    match t
    case End => ""
    case Lit(s, n) => s + Subst(n, env)
    case Hole(h, n) => (if h in env then env[h] else Arg(h)) + Subst(n, env)
  }

  /** The template as a Java string constant, every placeholder literal. */
  function Render(t: Tpl): string
  {
    Subst(t, map[])
  }

  function Append(t: Tpl, u: Tpl): Tpl
  {
    match t
    case End => u
    case Lit(s, n) => Lit(s, Append(n, u))
    case Hole(h, n) => Hole(h, Append(n, u))
  }

  predicate EnvOk(env: map<string, string>)
  {
    forall h :: h in env ==> NoLt(env[h])
  }

  /** None of the template's placeholders is filled by `env`. */
  predicate Unfilled(t: Tpl, env: map<string, string>)
  {
    match t
    case End => true
    case Lit(_, n) => Unfilled(n, env)
    case Hole(h, n) => h !in env && Unfilled(n, env)
  }

  lemma {:induction false} SubstAppend(t: Tpl, u: Tpl, env: map<string, string>)
    ensures Subst(Append(t, u), env) == Subst(t, env) + Subst(u, env)
  {
    match t
    case End =>
      assert Subst(t, env) == "";
    case Lit(s, n) =>
      SubstAppend(n, u, env);
      Associate(s, Subst(n, env), Subst(u, env));
    case Hole(h, n) =>
      SubstAppend(n, u, env);
      Associate(if h in env then env[h] else Arg(h), Subst(n, env), Subst(u, env));
  }

  lemma Associate(a: string, b: string, c: string)
    ensures a + (b + c) == (a + b) + c
  {
  }

  /** A template none of whose placeholders is filled renders as its constant. */
  lemma {:induction false} SubstUnfilled(t: Tpl, env: map<string, string>)
    requires Unfilled(t, env)
    ensures Subst(t, env) == Render(t)
  {
    match t
    case End =>
    case Lit(s, n) =>
      SubstUnfilled(n, env);
    case Hole(h, n) =>
      SubstUnfilled(n, env);
  }

  /** Two different placeholders disagree at a position inside both. */
  lemma PlaceholdersDiverge(h: Name, name: Name)
    requires h != name
    ensures Diverge(Arg(h), Arg(name))
  {
    var p, t := Arg(h), Arg(name);
    if exists j :: 0 <= j < |h| && j < |name| && h[j] != name[j] {
      var j :| 0 <= j < |h| && j < |name| && h[j] != name[j];
      assert p[j + 1] == h[j] && t[j + 1] == name[j];
    } else if |h| < |name| {
      assert p[|h| + 1] == '>';
      assert t[|h| + 1] == name[|h|];
    } else {
      assert |name| < |h|;
      assert t[|name| + 1] == '>';
      assert p[|name| + 1] == h[|name|];
    }
  }

  /**
   * `replace("<name>", v)` on a partly filled template fills every `<name>`
   * placeholder with `v` and changes nothing else.
   */
  lemma {:induction false} ReplaceSubst(t: Tpl, env: map<string, string>, name: Name, v: string)
    requires EnvOk(env) && name !in env && NoLt(v)
    ensures Replace(Subst(t, env), Arg(name), v) == Subst(t, env[name := v])
  {
    var target := Arg(name);
    var env' := env[name := v];
    match t
    case End =>
    case Lit(s, n) =>
      ReplaceSkip(s, Subst(n, env), target, v);
      ReplaceSubst(n, env, name, v);
    case Hole(h, n) =>
      var rest := Subst(n, env);
      ReplaceSubst(n, env, name, v);
      if h in env {
        ReplaceSkip(env[h], rest, target, v);
        assert env'[h] == env[h];
      } else if h == name {
        ReplaceHere(rest, target, v);
      } else {
        PlaceholdersDiverge(h, name);
        assert Arg(h)[1..] == h + ">";
        ReplaceOther(Arg(h), rest, target, v);
      }
  }

  /** The template has no placeholder called `name`. */
  predicate Lacks(t: Tpl, name: string)
  {
    match t
    case End => true
    case Lit(_, n) => Lacks(n, name)
    case Hole(h, n) => h != name && Lacks(n, name)
  }

  lemma {:induction false} LacksAppend(t: Tpl, u: Tpl, name: string)
    requires Lacks(t, name) && Lacks(u, name)
    ensures Lacks(Append(t, u), name)
  {
    match t
    case End =>
    case Lit(_, n) =>
      LacksAppend(n, u, name);
    case Hole(_, n) =>
      LacksAppend(n, u, name);
  }

  /** `replace("<name>", v)` of a placeholder the template does not have changes nothing, whatever `v` is. */
  lemma {:induction false} ReplaceLacking(t: Tpl, env: map<string, string>, name: Name, v: string)
    requires EnvOk(env) && Lacks(t, name)
    ensures Replace(Subst(t, env), Arg(name), v) == Subst(t, env)
  {
    var target := Arg(name);
    match t
    case End =>
    case Lit(s, n) =>
      ReplaceSkip(s, Subst(n, env), target, v);
      ReplaceLacking(n, env, name, v);
    case Hole(h, n) =>
      var rest := Subst(n, env);
      ReplaceLacking(n, env, name, v);
      if h in env {
        ReplaceSkip(env[h], rest, target, v);
      } else {
        PlaceholdersDiverge(h, name);
        assert Arg(h)[1..] == h + ">";
        ReplaceOther(Arg(h), rest, target, v);
      }
  }

  /** A suffix template appended after some fillings, then one more placeholder filled. */
  lemma ReplaceAppended(t: Tpl, u: Tpl, env: map<string, string>, name: Name, v: string)
    requires EnvOk(env) && Unfilled(u, env) && name !in env && NoLt(v)
    ensures Replace(Subst(t, env) + Render(u), Arg(name), v) == Subst(Append(t, u), env[name := v])
  {
    SubstUnfilled(u, env);
    SubstAppend(t, u, env);
    ReplaceSubst(Append(t, u), env, name, v);
  }
}
