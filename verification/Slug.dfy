/**
  Portfolio slugs (src/modules/portfolios/slug.ts) and the name checks that keep a user's slugs apart
  (src/modules/portfolios/portfolios.service.ts).
 */
module Slug {
  import opened Options
  import opened Sets

  /** Lower-casing may turn one character into several; `space` is the regular expression class \s. */
  datatype Alphabet = Alphabet(lower: char -> string, space: char -> bool)

  predicate IsWord(c: char) { 'a' <= c <= 'z' || '0' <= c <= '9' }

  predicate IsSlugChar(c: char) { IsWord(c) || c == '-' }

  /** Slug characters are lower case already and are not white space. */
  ghost predicate Sane(a: Alphabet) { forall c :: IsSlugChar(c) ==> a.lower(c) == [c] && !a.space(c) }

  function Lower(a: Alphabet, s: string): string {
    if s == [] then [] else a.lower(s[0]) + Lower(a, s[1..])
  }

  function TrimStart(a: Alphabet, s: string): string {
    if s != [] && a.space(s[0]) then TrimStart(a, s[1..]) else s
  }

  function TrimEnd(a: Alphabet, s: string): string {
    if s != [] && a.space(s[|s|-1]) then TrimEnd(a, s[..|s|-1]) else s
  }

  function Keep(a: Alphabet, s: string): string {
    if s == [] then []
    else (if IsSlugChar(s[0]) || a.space(s[0]) then [s[0]] else []) + Keep(a, s[1..])
  }

  /** Each run of white space becomes one dash; `in_` says that a run is under way. */
  function Dash(a: Alphabet, s: string, in_: bool): string {
    if s == [] then []
    else if a.space(s[0]) then (if in_ then [] else ['-']) + Dash(a, s[1..], true)
    else [s[0]] + Dash(a, s[1..], false)
  }

  /** Each run of dashes becomes one. */
  function Squeeze(s: string): string {
    if |s| < 2 then s
    else if s[0] == '-' && s[1] == '-' then Squeeze(s[1..])
    else [s[0]] + Squeeze(s[1..])
  }

  /** One dash off either end. */
  function Strip(s: string): string {
    var t := if s != [] && s[0] == '-' then s[1..] else s;
    if t != [] && t[|t|-1] == '-' then t[..|t|-1] else t
  }

  function Slugify(a: Alphabet, name: string): string {
    Strip(Squeeze(Dash(a, Keep(a, TrimEnd(a, TrimStart(a, Lower(a, name)))), false)))
  }

  // ---------------------------------------------------------------------------------------------
  // The normal form
  // ---------------------------------------------------------------------------------------------

  predicate SlugChars(s: string) { forall i :: 0 <= i < |s| ==> IsSlugChar(s[i]) }

  predicate NoDoubleDash(s: string) { forall i :: 0 <= i < |s| - 1 ==> !(s[i] == '-' && s[i+1] == '-') }

  /** Only lower-case letters, digits and single dashes, none at either end. */
  predicate Normal(s: string) {
    SlugChars(s) && NoDoubleDash(s) && (s != [] ==> s[0] != '-' && s[|s|-1] != '-')
  }

  lemma {:induction false} KeepDashed(a: Alphabet, s: string, in_: bool)
    ensures SlugChars(Dash(a, Keep(a, s), in_))
  {
    if s != [] {
      var kept := Keep(a, s[1..]);
      if IsSlugChar(s[0]) || a.space(s[0]) {
        assert Keep(a, s) == [s[0]] + kept && ([s[0]] + kept)[1..] == kept;
        KeepDashed(a, s[1..], a.space(s[0]));
      } else {
        assert Keep(a, s) == kept;
        KeepDashed(a, s[1..], in_);
      }
    }
  }

  lemma {:induction false} SqueezeSqueezes(s: string)
    requires SlugChars(s)
    ensures SlugChars(Squeeze(s)) && NoDoubleDash(Squeeze(s))
    ensures s != [] ==> Squeeze(s) != [] && Squeeze(s)[0] == s[0]
  {
    if |s| >= 2 {
      SqueezeSqueezes(s[1..]);
      assert s[1..][0] == s[1];
    }
  }

  lemma SlugifyIsNormal(a: Alphabet, name: string)
    ensures Normal(Slugify(a, name))
  {
    var s := TrimEnd(a, TrimStart(a, Lower(a, name)));
    KeepDashed(a, s, false);
    SqueezeSqueezes(Dash(a, Keep(a, s), false));
  }

  lemma {:induction false} SlugCharsPass(a: Alphabet, s: string)
    requires Sane(a) && SlugChars(s)
    ensures Lower(a, s) == s && Keep(a, s) == s && Dash(a, s, false) == s
  {
    if s != [] {
      SlugCharsPass(a, s[1..]);
      assert s == [s[0]] + s[1..];
    }
  }

  lemma {:induction false} SingleDashesPass(s: string)
    requires NoDoubleDash(s)
    ensures Squeeze(s) == s
  {
    if |s| >= 2 {
      assert s[0 + 1] == s[1];
      forall i | 0 <= i < |s[1..]| - 1 ensures !(s[1..][i] == '-' && s[1..][i+1] == '-') {
        assert s[1..][i] == s[i+1] && s[1..][i+1] == s[i+1+1];
      }
      SingleDashesPass(s[1..]);
      assert s == [s[0]] + s[1..];
    }
  }

  /** The names that are their own slug are exactly the normal ones. */
  lemma FixedIffNormal(a: Alphabet, s: string)
    requires Sane(a)
    ensures Slugify(a, s) == s <==> Normal(s)
  {
    if Normal(s) {
      SlugCharsPass(a, s);
      SingleDashesPass(s);
    }
    SlugifyIsNormal(a, s);
  }

  lemma SlugifyTwice(a: Alphabet, name: string)
    requires Sane(a)
    ensures Slugify(a, Slugify(a, name)) == Slugify(a, name)
  {
    SlugifyIsNormal(a, name);
    FixedIffNormal(a, Slugify(a, name));
  }

  // ---------------------------------------------------------------------------------------------
  // One user's portfolio names
  // ---------------------------------------------------------------------------------------------

  datatype NameError = InvalidName | NameTaken | Forbidden | PlanLimitReached

  /** The name has a slug, and no portfolio other than the excluded one has the same. */
  ghost predicate Available(a: Alphabet, names: map<int, string>, name: string, exclude: Option<int>) {
    && Slugify(a, name) != []
    && forall id :: id in names && Some(id) != exclude ==> Slugify(a, names[id]) != Slugify(a, name)
  }

  class PortfolioNames {
    const alphabet: Alphabet
    var names: map<int, string>

    constructor (alphabet: Alphabet)
      ensures Valid() && names == map[] && this.alphabet == alphabet
    {
      this.alphabet := alphabet;
      names := map[];
    }

    /** Every slug is non-empty, and no two portfolios share one. */
    ghost predicate Valid()
      reads this
    {
      && (forall id :: id in names ==> Slugify(alphabet, names[id]) != [])
      && forall a, b :: a in names && b in names && a != b ==> Slugify(alphabet, names[a]) != Slugify(alphabet, names[b])
    }

    method AssertSlugAvailable(name: string, exclude: Option<int>) returns (refused: Option<NameError>)
      ensures refused == Some(InvalidName) <==> Slugify(alphabet, name) == []
      ensures refused == None <==> Available(alphabet, names, name, exclude)
      ensures refused in {None, Some(InvalidName), Some(NameTaken)}
    {
      hide Slugify;
      var slug := Slugify(alphabet, name);
      if slug == [] {
        return Some(InvalidName);
      }
      var left := names.Keys;
      while left != {}
        invariant left <= names.Keys
        invariant forall id :: id in names && id !in left && Some(id) != exclude ==> Slugify(alphabet, names[id]) != slug
        decreases left
      {
        SomeNumber(left);
        var id :| id in left;
        if Some(id) != exclude && Slugify(alphabet, names[id]) == slug {
          return Some(NameTaken);
        }
        left := left - {id};
      }
      refused := None;
    }

    /** `cap` is the plan's limit; a new row gets a new id. */
    method CreatePortfolio(id: int, name: string, cap: nat) returns (refused: Option<NameError>)
      requires Valid() && id !in names
      modifies this
      ensures Valid()
      ensures names == if refused == None then old(names)[id := name] else old(names)
      ensures refused == Some(PlanLimitReached) <==> |old(names)| >= cap
      ensures refused == None <==> |old(names)| < cap && Available(alphabet, old(names), name, None)
    {
      hide Slugify;
      if |names| >= cap {
        return Some(PlanLimitReached);
      }
      refused := AssertSlugAvailable(name, None);
      if refused == None {
        names := names[id := name];
      }
    }

    /** Keeping the name is always allowed; a portfolio does not compete with its own old name. */
    method RenamePortfolio(id: int, name: string) returns (refused: Option<NameError>)
      requires Valid()
      modifies this
      ensures Valid()
      ensures names == if refused == None then old(names)[id := name] else old(names)
      ensures refused == Some(Forbidden) <==> id !in old(names)
      ensures refused == None <==>
        id in old(names) && (name == old(names)[id] || Available(alphabet, old(names), name, Some(id)))
    {
      hide Slugify;
      if id !in names {
        return Some(Forbidden);
      }
      if name == names[id] {
        return None;
      }
      refused := AssertSlugAvailable(name, Some(id));
      if refused == None {
        names := names[id := name];
      }
    }
  }
}
