/** What the parts of a target spec are, and which key a spec asks for by itself. */
module TargetSpecs {
  import opened Common
  import opened Desugar

  ghost predicate Twice(s: string, c: char) {
    exists k | 0 <= k < |s| - 1 :: s[k] == c && s[k + 1] == c
  }

  /** Part `a` stands before the first doubled separator that something follows, if there is one. */
  ghost predicate CutOff(a: Option<string>, rest: string, c: char) {
    && rest != ""
    && if a.Some? then !Twice(a.value + [c], c) else !Twice(rest[..|rest| - 1], c)
  }

  /** The parts of a spec `[<instance>::][<worksheet>//]<bundle>[/<subpath>]`. */
  ghost predicate PartsAre(spec: string, p: TargetParts) {
    var t := p.bundle + if p.subpath.Some? then "/" + p.subpath.value else "";
    var s := Prefixed(p.worksheet, "//") + t;
    && spec == Prefixed(p.instance, "::") + s
    && CutOff(p.instance, s, ':') && CutOff(p.worksheet, t, '/')
    && p.bundle != "" && forall k | 1 <= k < |p.bundle| :: p.bundle[k] != '/'
  }

  lemma {:induction false} FirstTwice(s: string, c: char, from: nat, i: nat)
    requires from <= i <= |s| && (i < |s| ==> i + 1 < |s| && s[i] == c && s[i + 1] == c)
    requires forall k | from <= k < i && k + 1 < |s| :: !(s[k] == c && s[k + 1] == c)
    ensures FindTwice(s, c, from) == i
    decreases i - from
  {
    if from < i {
      FirstTwice(s, c, from + 1, i);
    }
  }

  lemma CutSome(a: string, rest: string, c: char)
    requires CutOff(Some(a), rest, c)
    ensures Before(a + [c, c] + rest, c) == (Some(a), rest)
  {
    hide FindTwice;
    var s, first := a + [c, c] + rest, a + [c];
    assert forall k | 0 <= k < |first| :: s[k] == first[k];
    FirstTwice(s, c, 0, |a|);
    assert s[..|a|] == a && s[|a| + 2..] == rest;
  }

  lemma CutNone(s: string, c: char)
    requires CutOff(None, s, c)
    ensures Before(s, c) == (None, s)
  {
    hide FindTwice;
    assert forall k | 0 <= k < |s| - 1 :: s[..|s| - 1][k] == s[k];
  }

  lemma CutBefore(s: string, c: char)
    requires s != ""
    ensures var (a, rest) := Before(s, c); CutOff(a, rest, c)
  {
    hide FindTwice;
    var (a, rest) := Before(s, c);
    if a.Some? {
      assert forall k | 0 <= k < |a.value + [c]| :: (a.value + [c])[k] == s[k];
    } else {
      assert forall k | 0 <= k < |s| - 1 :: s[..|s| - 1][k] == s[k];
    }
  }

  lemma BeforeExactly(s: string, c: char, a: Option<string>, rest: string)
    requires s != ""
    ensures Before(s, c) == (a, rest) <==> s == Prefixed(a, [c, c]) + rest && CutOff(a, rest, c)
  {
    CutBefore(s, c);
    BeforeParts(s, c);
    hide Before;
    if s == Prefixed(a, [c, c]) + rest && CutOff(a, rest, c) {
      if a.Some? {
        CutSome(a.value, rest, c);
      } else {
        assert s == rest;
        CutNone(s, c);
      }
    }
  }

  lemma BundleExactly(t: string, bundle: string, subpath: Option<string>)
    requires t != ""
    ensures BundleAndSubpath(t) == (bundle, subpath) <==>
      && t == bundle + (if subpath.Some? then "/" + subpath.value else "")
      && bundle != "" && forall k | 1 <= k < |bundle| :: bundle[k] != '/'
  {
    BundleParts(t);
    if t == bundle + (if subpath.Some? then "/" + subpath.value else "") && bundle != ""
      && forall k | 1 <= k < |bundle| :: bundle[k] != '/' {
      hide Find;
      var j := Find(t, '/', 1);
      assert forall k | 0 <= k < |bundle| :: t[k] == bundle[k];
      assert subpath.Some? ==> t[|bundle|] == '/' && t[|bundle| + 1..] == subpath.value;
      assert j == |bundle|;
      assert t[..j] == bundle;
    }
  }

  /** A spec has its parts in exactly one way. */
  lemma PartsExactly(spec: string, p: TargetParts)
    requires spec != ""
    ensures ParseTargetSpec(spec) == p <==> PartsAre(spec, p)
  {
    var q := ParseTargetSpec(spec);
    var (instance, s) := Before(spec, ':');
    var (worksheet, t) := Before(s, '/');
    BeforeExactly(spec, ':', instance, s);
    BeforeExactly(s, '/', worksheet, t);
    BundleExactly(t, q.bundle, q.subpath);
    hide Before, BundleAndSubpath, CutOff, Prefixed;
    if PartsAre(spec, p) {
      var t' := p.bundle + if p.subpath.Some? then "/" + p.subpath.value else "";
      var s' := Prefixed(p.worksheet, "//") + t';
      assert s' != "" && t' != "";
      BeforeExactly(spec, ':', p.instance, s');
      BeforeExactly(s', '/', p.worksheet, t');
      BundleExactly(t', p.bundle, p.subpath);
    }
  }

  /** A spec is refused iff it is empty or ends with its first colon. */
  lemma EmptyValueIff(spec: string)
    ensures ParseKeyTarget(spec).Err? <==> spec == "" || (spec[|spec| - 1] == ':' && ':' !in spec[..|spec| - 1])
  {
    hide Find;
    var i := Find(spec, ':', 0);
    if spec != "" && spec[|spec| - 1] == ':' && ':' !in spec[..|spec| - 1] {
      assert spec[..|spec| - 1][..] == spec[..|spec| - 1];
      assert forall k | 0 <= k < |spec| - 1 :: spec[k] == spec[..|spec| - 1][k];
      assert i == |spec| - 1;
    }
  }

  /** A spec without a colon, or with a second one right after the first, asks for no key and is its own
      target. */
  lemma UnkeyedIff(spec: string, value: string)
    ensures ParseKeyTarget(spec) == Ok(KeyTarget(None, value)) <==>
      && value == spec && spec != ""
      && (':' in spec ==> exists i | 0 <= i < |spec| - 1 :: spec[i] == ':' && spec[i + 1] == ':' && ':' !in spec[..i])
    ensures ParseKeyTarget(spec) == Ok(KeyTarget(None, value)) ==> Unasked(spec)
  {
    hide Find;
    var i := Find(spec, ':', 0);
    if i < |spec| {
      assert ':' !in spec[..i];
      forall k | i < k <= |spec|
        ensures ':' in spec[..k]
      {
        assert spec[..k][i] == ':';
      }
    }
  }

  /** A spec `key:target` asks for its key, and `:target` for the subpath of the target, or for its bundle
      when there is none. */
  lemma KeyAsked(key: string, value: string, p: TargetParts)
    requires ':' !in key && value != "" && value[0] != ':' && PartsAre(value, p)
    ensures AskedFor(key + ":" + value, if key != "" then key else if p.subpath.Some? then p.subpath.value else p.bundle)
    ensures ValueOf(key + ":" + value) == value
  {
    KeyedIff(key + ":" + value, key, value);
    PartsExactly(value, p);
    hide PartsAre, ParseKeyTarget, ParseTargetSpec;
  }

  lemma OneAsked()
    ensures AskedFor("b2:x", "b2") && ValueOf("b2:x") == "x" && Unasked("a") && ValueOf("a") == "a"
  {
    assert "b2" + ":" + "x" == "b2:x";
    KeyedIff("b2:x", "b2", "x");
    UnkeyedIff("a", "a");
  }

  /** A spec without a key is refused when its new key has been asked for. */
  lemma NewKeyRefused()
    ensures GetAll(["b2:x"]).Ok? && GetAll(["b2:x", "a"]).Err?
  {
    var deps := ["b2:x"];
    OneAsked();
    assert deps[..0] == [];
    assert GetAll(deps[..0]) == Ok((NO_NAMES, []));
    assert GetAll(deps).Ok? && GetAll(deps).value.1 == ["b2"];
    hide GetAll, ParseKeyTarget, AskedKey;
    assert Elems(["b2"]) == {"b2"};
    assert Digits(2) == "2";
    assert "b" + "2" == "b2";
    assert AskedFor(deps[0], "b" + Digits(2));
    NewKeyMeets(deps, ["b2"], "a");
    assert deps + ["a"] == ["b2:x", "a"];
  }
}
