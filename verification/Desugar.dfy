/** Commands with placeholders for bundles, and the named targets they stand for:
    `desugar_command`. Specs and commands have no newline. */
module Desugar {
  import opened Common

  // ---------------------------------------------------------------- patterns

  /** The first place at or after `from` where `c` stands, or the length. */
  function Find(s: string, c: char, from: nat): (i: nat)
    requires from <= |s|
    ensures from <= i <= |s| && (i < |s| ==> s[i] == c)
    ensures forall k | from <= k < i :: s[k] != c
    decreases |s| - from
  {
    if from == |s| || s[from] == c then from else Find(s, c, from + 1)
  }

  /** The first place where `c` stands twice in a row, or the length. */
  function FindTwice(s: string, c: char, from: nat): (i: nat)
    requires from <= |s|
    ensures from <= i <= |s| && (i < |s| ==> i + 1 < |s| && s[i] == s[i + 1] == c)
    ensures forall k | from <= k < i && k + 1 < |s| :: !(s[k] == c && s[k + 1] == c)
    decreases |s| - from
  {
    if from == |s| then from
    else if from + 1 < |s| && s[from] == c && s[from + 1] == c then from
    else FindTwice(s, c, from + 1)
  }

  datatype UsageError = EmptyValue(spec: string) | TwoValues(key: string, first: string, second: string)

  datatype KeyTarget = KeyTarget(key: Option<string>, value: string)

  /** A key ends at the first colon, unless another colon follows. */
  function ParseKeyTarget(spec: string): (r: Result<KeyTarget, UsageError>)
    ensures r.Ok? ==> r.value.value != ""
  {
    var i := Find(spec, ':', 0);
    var p :=
      if i < |spec| && !(i + 1 < |spec| && spec[i + 1] == ':') then KeyTarget(Some(spec[..i]), spec[i + 1..])
      else KeyTarget(None, spec);
    if p.value == "" then Err(EmptyValue(spec)) else Ok(p)
  }

  /** The specs that parse with a key, and the parts they have. */
  lemma KeyedIff(spec: string, key: string, value: string)
    ensures ParseKeyTarget(spec) == Ok(KeyTarget(Some(key), value)) <==>
      spec == key + ":" + value && ':' !in key && value != "" && value[0] != ':'
  {
    var i := Find(spec, ':', 0);
    if spec == key + ":" + value && ':' !in key && value != "" && value[0] != ':' {
      assert spec[|key|] == ':' && forall k | 0 <= k < |key| :: spec[k] == key[k];
      assert i == |key|;
      assert spec[i + 1..] == value && spec[..i] == key;
    }
    if ParseKeyTarget(spec) == Ok(KeyTarget(Some(key), value)) {
      assert spec == spec[..i] + [spec[i]] + spec[i + 1..];
      assert spec[i + 1..][0] == spec[i + 1];
    }
  }

  datatype TargetParts = TargetParts(instance: Option<string>, worksheet: Option<string>, bundle: string, subpath: Option<string>)

  /** What stands before a doubled separator, when something is left after it. */
  function Before(s: string, c: char): (r: (Option<string>, string))
    ensures s != "" ==> r.1 != ""
  {
    var i := FindTwice(s, c, 0);
    if i < |s| && s[i + 2..] != "" then (Some(s[..i]), s[i + 2..]) else (None, s)
  }

  /** The bundle, and what stands after the first slash that follows a character of it. */
  function BundleAndSubpath(t: string): (string, Option<string>)
    requires t != ""
  {
    var j := Find(t, '/', 1);
    (t[..j], if j < |t| then Some(t[j + 1..]) else None)
  }

  function ParseTargetSpec(spec: string): TargetParts
    requires spec != ""
  {
    var (instance, s) := Before(spec, ':');
    var (worksheet, t) := Before(s, '/');
    var (bundle, subpath) := BundleAndSubpath(t);
    TargetParts(instance, worksheet, bundle, subpath)
  }

  function Prefixed(a: Option<string>, separator: string): string {
    if a.Some? then a.value + separator else ""
  }

  function Print(p: TargetParts): string {
    Prefixed(p.instance, "::") + (Prefixed(p.worksheet, "//") +
      (p.bundle + if p.subpath.Some? then "/" + p.subpath.value else ""))
  }

  lemma BeforeParts(s: string, c: char)
    ensures var (a, rest) := Before(s, c); s == Prefixed(a, [c, c]) + rest
  {
    var i := FindTwice(s, c, 0);
    if i < |s| {
      assert s == s[..i] + [s[i], s[i + 1]] + s[i + 2..];
    }
  }

  lemma BundleParts(t: string)
    requires t != ""
    ensures var (bundle, subpath) := BundleAndSubpath(t);
      && t == bundle + (if subpath.Some? then "/" + subpath.value else "")
      && bundle != "" && forall k | 1 <= k < |bundle| :: bundle[k] != '/'
  {
    var j := Find(t, '/', 1);
    if j < |t| {
      assert t == t[..j] + ([t[j]] + t[j + 1..]);
    }
  }

  /** Nothing of a spec is lost in its parts, and the bundle is never empty and has no slash after
      its first character. */
  lemma PartsPrintBack(spec: string)
    requires spec != ""
    ensures var p := ParseTargetSpec(spec);
      && Print(p) == spec && p.bundle != ""
      && (forall k | 1 <= k < |p.bundle| :: p.bundle[k] != '/')
  {
    hide Before, BundleAndSubpath, Prefixed;
    var (instance, s) := Before(spec, ':');
    var (worksheet, t) := Before(s, '/');
    BeforeParts(spec, ':');
    BeforeParts(s, '/');
    BundleParts(t);
  }

  /** The text before the first placeholder, the placeholder, and the rest of a command. */
  function NextPlaceholder(command: string): Option<(string, string, string)> {
    var i := Find(command, '%', 0);
    if i == |command| then None
    else
      var j := Find(command, '%', i + 1);
      if j == |command| || j == i + 1 then None
      else Some((command[..i], command[i + 1..j], command[j + 1..]))
  }

  lemma Slices(s: string, prefix: string, text: string, rest: string)
    requires s == prefix + text + "%" + rest
    ensures var p, n := |prefix|, |prefix| + |text|; n < |s| && s[n] == '%' && s[p..n] == text && s[n + 1..] == rest
  {
    var front := prefix + text;
    assert s == front + ("%" + rest);
    assert s[..|front|] == front && front[|prefix|..] == text;
  }

  lemma {:induction false} FindIs(s: string, c: char, from: nat, i: nat)
    requires from <= i < |s| && s[i] == c && c !in s[from..i]
    ensures Find(s, c, from) == i
    decreases i - from
  {
    if from < i {
      assert s[from] == s[from..i][0];
      assert s[from + 1..i] == s[from..i][1..];
      FindIs(s, c, from + 1, i);
    }
  }

  lemma PlaceholderOf(text: string, dep: string, rest: string)
    requires '%' !in text && '%' !in dep && dep != ""
    ensures NextPlaceholder(text + "%" + dep + "%" + rest) == Some((text, dep, rest))
  {
    hide Find;
    var command := text + "%" + dep + "%" + rest;
    var i, j := |text|, |text| + 1 + |dep|;
    assert command == "" + text + "%" + (dep + "%" + rest);
    Slices(command, "", text, dep + "%" + rest);
    FindIs(command, '%', 0, i);
    assert command == (text + "%") + dep + "%" + rest;
    Slices(command, text + "%", dep, rest);
    FindIs(command, '%', i + 1, j);
  }

  /** A command has a next placeholder in exactly one way. */
  lemma NextPlaceholderIff(command: string, text: string, dep: string, rest: string)
    ensures NextPlaceholder(command) == Some((text, dep, rest)) <==>
      command == text + "%" + dep + "%" + rest && '%' !in text && '%' !in dep && dep != ""
  {
    if '%' !in text && '%' !in dep && dep != "" {
      PlaceholderOf(text, dep, rest);
    }
    if NextPlaceholder(command) == Some((text, dep, rest)) {
      hide Find;
      var i := Find(command, '%', 0);
      var j := Find(command, '%', i + 1);
      assert command == command[..i] + [command[i]] + command[i + 1..j] + [command[j]] + command[j + 1..];
    }
  }

  // ---------------------------------------------------------------- keys for targets

  /** The target bound to each key, the first key of each target, and the bindings in order. */
  datatype Names = Names(key2val: map<string, string>, val2key: map<string, string>, bound: seq<(string, string)>)

  const NO_NAMES := Names(map[], map[], [])

  /** The key a spec asks for by itself: the one it gives, or for an empty one the subpath of its
      target, or the bundle if it has none. */
  function AskedKey(p: KeyTarget): Option<string>
    requires p.value != ""
  {
    if p.key == Some("") then
      var t := ParseTargetSpec(p.value);
      Some(if t.subpath.Some? then t.subpath.value else t.bundle)
    else p.key
  }

  /** The key for a spec: the one it asks for, else the first key of its target, else a new one. */
  function KeyFor(n: Names, p: KeyTarget): string
    requires p.value != ""
  {
    match AskedKey(p)
    case Some(k) => k
    case None => if p.value in n.val2key then n.val2key[p.value] else "b" + Digits(|n.bound| + 1)
  }

  function Bind(n: Names, key: string, value: string): Result<Names, UsageError> {
    var val2key := if value in n.val2key then n.val2key else n.val2key[value := key];
    if key in n.key2val then
      if n.key2val[key] != value then Err(TwoValues(key, n.key2val[key], value))
      else Ok(n.(val2key := val2key))
    else Ok(Names(n.key2val[key := value], val2key, n.bound + [(key, value)]))
  }

  function GetKey(n: Names, dep: string): Result<(Names, string), UsageError> {
    match ParseKeyTarget(dep)
    case Err(e) => Err(e)
    case Ok(p) =>
      match Bind(n, KeyFor(n, p), p.value)
      case Err(e) => Err(e)
      case Ok(n') => Ok((n', KeyFor(n, p)))
  }

  /** All specs in order, with the key each one got. */
  function GetAll(deps: seq<string>): (r: Result<(Names, seq<string>), UsageError>)
    ensures r.Ok? ==> |r.value.1| == |deps|
  {
    if deps == [] then Ok((NO_NAMES, []))
    else
      match GetAll(deps[..|deps| - 1])
      case Err(e) => Err(e)
      case Ok((n, keys)) =>
        match GetKey(n, deps[|deps| - 1])
        case Err(e) => Err(e)
        case Ok((n', key)) => Ok((n', keys + [key]))
  }

  lemma GetAllSnoc(deps: seq<string>, dep: string)
    ensures GetAll(deps + [dep]) ==
      match GetAll(deps)
      case Err(e) => Err(e)
      case Ok((n, keys)) =>
        match GetKey(n, dep)
        case Err(e) => Err(e)
        case Ok((n', key)) => Ok((n', keys + [key]))
  {
    assert (deps + [dep])[..|deps|] == deps;
  }

  /** No key is bound twice, and both dictionaries say what the bindings say. */
  ghost predicate Consistent(n: Names) {
    && (forall i, j | 0 <= i < j < |n.bound| :: n.bound[i].0 != n.bound[j].0)
    && (forall b | b in n.bound :: b.0 in n.key2val && n.key2val[b.0] == b.1)
    && (forall k | k in n.key2val :: (k, n.key2val[k]) in n.bound)
    && (forall v | v in n.val2key :: (n.val2key[v], v) in n.bound)
  }

  lemma BindKeeps(n: Names, key: string, value: string)
    requires Consistent(n) && Bind(n, key, value).Ok?
    ensures var n' := Bind(n, key, value).value;
      Consistent(n') && n.bound <= n'.bound && (key, value) in n'.bound
  {
    var n' := Bind(n, key, value).value;
    if key !in n.key2val {
      BindNew(n, key, value);
    }
  }

  lemma BindNew(n: Names, key: string, value: string)
    requires Consistent(n) && key !in n.key2val
    ensures var n' := Bind(n, key, value).value;
      Consistent(n') && n.bound <= n'.bound && (key, value) in n'.bound
  {
    var n' := Bind(n, key, value).value;
    assert n'.bound[|n.bound|] == (key, value);
    assert forall b | b in n.bound :: b.0 in n.key2val;
    assert forall b | b in n.bound :: b in n'.bound;
    forall b | b in n'.bound
      ensures b.0 in n'.key2val && n'.key2val[b.0] == b.1
    {
      assert b in n.bound || b == (key, value);
    }
    forall i | 0 <= i < |n.bound|
      ensures n.bound[i].0 != key
    {
      assert n.bound[i] in n.bound;
    }
  }

  /** Binding fails exactly when the key already has another target. */
  lemma BindFails(n: Names, key: string, value: string)
    requires Consistent(n)
    ensures Bind(n, key, value).Err? <==> exists v :: v != value && (key, v) in n.bound
  {
  }

  /** A spec is bound, under the key it got, to exactly its own target; if it asked for a key it
      got that one. */
  ghost predicate Served(dep: string, key: string, n: Names) {
    var r := ParseKeyTarget(dep);
    r.Ok? && (key, r.value.value) in n.bound && (AskedKey(r.value).Some? ==> AskedKey(r.value).value == key)
  }

  lemma GetServes(n: Names, dep: string)
    requires Consistent(n) && GetKey(n, dep).Ok?
    ensures var (n', key) := GetKey(n, dep).value; Consistent(n') && n.bound <= n'.bound && Served(dep, key, n')
  {
    hide ParseKeyTarget, AskedKey, Consistent, Bind;
    var p := ParseKeyTarget(dep).value;
    BindKeeps(n, KeyFor(n, p), p.value);
  }

  lemma ServedLater(dep: string, key: string, n: Names, n': Names)
    requires Served(dep, key, n) && n.bound <= n'.bound
    ensures Served(dep, key, n')
  {
    var b := (key, ParseKeyTarget(dep).value.value);
    var i :| 0 <= i < |n.bound| && n.bound[i] == b;
    assert n'.bound[i] == b;
  }

  /** In a successful run every spec is served, and the bindings are consistent. */
  lemma {:induction false} AllServed(deps: seq<string>)
    requires GetAll(deps).Ok?
    ensures var (n, keys) := GetAll(deps).value;
      Consistent(n) && forall i | 0 <= i < |deps| :: Served(deps[i], keys[i], n)
  {
    hide Consistent, Served, GetKey;
    if deps == [] {
      NoNamesConsistent();
    } else {
      var m := |deps| - 1;
      AllServed(deps[..m]);
      var (n, keys) := GetAll(deps[..m]).value;
      GetServes(n, deps[m]);
      var (n', key) := GetKey(n, deps[m]).value;
      forall i | 0 <= i < |deps|
        ensures Served(deps[i], (keys + [key])[i], n')
      {
        if i < m {
          assert deps[..m][i] == deps[i];
          ServedLater(deps[i], keys[i], n, n');
        }
      }
    }
  }

  lemma NoNamesConsistent()
    ensures Consistent(NO_NAMES)
  {
  }

  /** One key asked for with two targets always fails. */
  lemma TwoTargetsFail(deps: seq<string>, i: nat, j: nat)
    requires i < |deps| && j < |deps| && ParseKeyTarget(deps[i]).Ok? && ParseKeyTarget(deps[j]).Ok?
    requires var p, q := ParseKeyTarget(deps[i]).value, ParseKeyTarget(deps[j]).value;
      AskedKey(p).Some? && AskedKey(p) == AskedKey(q) && p.value != q.value
    ensures GetAll(deps).Err?
  {
    if GetAll(deps).Ok? {
      AllServed(deps);
    }
  }

  /** Every binding was made for one of the specs. */
  lemma {:induction false} BoundForSpec(deps: seq<string>, b: (string, string)) returns (i: nat)
    requires GetAll(deps).Ok? && b in GetAll(deps).value.0.bound
    ensures i < |deps| && ParseKeyTarget(deps[i]).Ok?
    ensures b == (GetAll(deps).value.1[i], ParseKeyTarget(deps[i]).value.value)
  {
    hide ParseKeyTarget, KeyFor;
    i := |deps| - 1;
    var (n, keys) := GetAll(deps[..i]).value;
    if b in n.bound {
      i := BoundForSpec(deps[..i], b);
    }
  }

  /** Every spec asks for a key, and no key is asked for with two targets. */
  ghost predicate Unambiguous(deps: seq<string>) {
    && (forall i | 0 <= i < |deps| :: ParseKeyTarget(deps[i]).Ok?)
    && (forall i, j | 0 <= i < |deps| && 0 <= j < |deps| :: Agree(deps[i], deps[j]))
  }

  predicate Agree(d: string, e: string) {
    var p, q := ParseKeyTarget(d), ParseKeyTarget(e);
    p.Ok? && q.Ok? && AskedKey(p.value) == AskedKey(q.value) ==> p.value.value == q.value.value
  }

  /** Specs that all ask for keys are accepted exactly when each has a target and no key is asked for
      with two targets. */
  lemma {:induction false} AskedKeysIff(deps: seq<string>)
    requires forall i | 0 <= i < |deps| && ParseKeyTarget(deps[i]).Ok? :: AskedKey(ParseKeyTarget(deps[i]).value).Some?
    ensures GetAll(deps).Ok? <==> Unambiguous(deps)
  {
    hide ParseKeyTarget, AskedKey;
    if GetAll(deps).Ok? {
      AllServed(deps);
      forall i, j | 0 <= i < |deps| && 0 <= j < |deps|
        ensures ParseKeyTarget(deps[i]).Ok? && Agree(deps[i], deps[j])
      {
        var (n, keys) := GetAll(deps).value;
        assert Served(deps[i], keys[i], n) && Served(deps[j], keys[j], n);
      }
    }
    if Unambiguous(deps) && deps != [] {
      var m := |deps| - 1;
      var p := ParseKeyTarget(deps[m]).value;
      assert forall i | 0 <= i < m :: deps[..m][i] == deps[i];
      AskedKeysIff(deps[..m]);
      AllServed(deps[..m]);
      var (n, keys) := GetAll(deps[..m]).value;
      BindFails(n, KeyFor(n, p), p.value);
      forall v | (KeyFor(n, p), v) in n.bound
        ensures v == p.value
      {
        var i := BoundForSpec(deps[..m], (KeyFor(n, p), v));
        assert Served(deps[..m][i], keys[i], n) && Agree(deps[i], deps[m]);
      }
    }
  }

  // ---------------------------------------------------------------- which key a spec gets

  function ValueOf(dep: string): string
    requires ParseKeyTarget(dep).Ok?
  {
    ParseKeyTarget(dep).value.value
  }

  ghost predicate AllParse(deps: seq<string>) {
    forall i | 0 <= i < |deps| :: ParseKeyTarget(deps[i]).Ok?
  }

  /** Spec `j` is the first with the target `v`. */
  ghost predicate FirstWith(deps: seq<string>, j: nat, v: string)
    requires AllParse(deps) && j < |deps|
  {
    ValueOf(deps[j]) == v && forall m | 0 <= m < j :: ValueOf(deps[m]) != v
  }

  /** Key `key` is right for a spec that asks for no key and comes after `deps` with their keys: the key
      of the first spec with the target, or for a new target `b` and the number of different keys so
      far and one. */
  ghost predicate RightNewKey(deps: seq<string>, keys: seq<string>, v: string, key: string)
    requires AllParse(deps) && |keys| == |deps|
  {
    || (exists j | 0 <= j < |deps| && FirstWith(deps, j, v) :: key == keys[j])
    || ((forall j | 0 <= j < |deps| :: ValueOf(deps[j]) != v) && key == "b" + Digits(|Elems(keys)| + 1))
  }

  ghost predicate RightKey(deps: seq<string>, keys: seq<string>, dep: string, key: string)
    requires AllParse(deps) && |keys| == |deps| && ParseKeyTarget(dep).Ok?
  {
    var asked := AskedKey(ParseKeyTarget(dep).value);
    if asked.Some? then key == asked.value else RightNewKey(deps, keys, ValueOf(dep), key)
  }

  /** Every spec has the right key. */
  ghost predicate RightKeys(deps: seq<string>, keys: seq<string>) {
    && AllParse(deps) && |keys| == |deps|
    && forall i | 0 <= i < |deps| :: RightKey(deps[..i], keys[..i], deps[i], keys[i])
  }

  ghost predicate KnownValues(deps: seq<string>, keys: seq<string>, n: Names)
    requires AllParse(deps) && |keys| == |deps|
  {
    && n.key2val.Keys == Elems(keys)
    && (forall j | 0 <= j < |deps| :: n.key2val[keys[j]] == ValueOf(deps[j]))
    && (forall j | 0 <= j < |deps| :: ValueOf(deps[j]) in n.val2key)
  }

  ghost predicate KnownFirsts(deps: seq<string>, keys: seq<string>, n: Names)
    requires AllParse(deps) && |keys| == |deps|
  {
    forall v | v in n.val2key :: exists j | 0 <= j < |deps| :: FirstWith(deps, j, v) && n.val2key[v] == keys[j]
  }

  /** The dictionaries agree with the keys that the specs got. */
  ghost predicate Known(deps: seq<string>, keys: seq<string>, n: Names) {
    && AllParse(deps) && |keys| == |deps| && Consistent(n) && |n.bound| == |Elems(keys)|
    && KnownValues(deps, keys, n) && KnownFirsts(deps, keys, n)
  }

  lemma KeyForIsRight(deps: seq<string>, keys: seq<string>, n: Names, dep: string)
    requires Known(deps, keys, n) && ParseKeyTarget(dep).Ok?
    ensures RightKey(deps, keys, dep, KeyFor(n, ParseKeyTarget(dep).value))
  {
    hide ParseKeyTarget, AskedKey, Consistent;
    var v := ValueOf(dep);
    if v in n.val2key {
      var j :| 0 <= j < |deps| && FirstWith(deps, j, v) && n.val2key[v] == keys[j];
    }
  }

  lemma {:induction false} FirstOf(deps: seq<string>, j: nat, v: string) returns (k: nat)
    requires AllParse(deps) && j < |deps| && ValueOf(deps[j]) == v
    ensures k < |deps| && FirstWith(deps, k, v)
  {
    hide ParseKeyTarget;
    k := j;
    if m :| 0 <= m < j && ValueOf(deps[m]) == v {
      k := FirstOf(deps, m, v);
    }
  }

  /** There is only one right key. */
  lemma RightKeyUnique(deps: seq<string>, keys: seq<string>, dep: string, key: string, other: string)
    requires AllParse(deps) && |keys| == |deps| && ParseKeyTarget(dep).Ok?
    requires RightKey(deps, keys, dep, key) && RightKey(deps, keys, dep, other)
    ensures key == other
  {
    hide ParseKeyTarget, AskedKey, Digits;
    if AskedKey(ParseKeyTarget(dep).value).None? {
      var v := ValueOf(dep);
      if j :| 0 <= j < |deps| && FirstWith(deps, j, v) && key == keys[j] {
        var k :| 0 <= k < |deps| && FirstWith(deps, k, v) && other == keys[k];
        assert j == k;
      }
    }
  }

  lemma BoundSize(n: Names)
    requires Consistent(n)
    ensures |n.key2val.Keys| == |n.bound|
  {
    var ks := seq(|n.bound|, i requires 0 <= i < |n.bound| => n.bound[i].0);
    assert NoDup(ks);
    NoDupSize(ks);
    forall k
      ensures k in ks <==> k in n.key2val
    {
      if k in ks {
        var i :| 0 <= i < |ks| && ks[i] == k;
        assert n.bound[i] in n.bound;
      }
      if k in n.key2val {
        var i :| 0 <= i < |n.bound| && n.bound[i] == (k, n.key2val[k]);
        assert ks[i] == k;
      }
    }
    assert Elems(ks) == n.key2val.Keys;
  }

  lemma FirstStays(deps: seq<string>, dep: string, j: nat, v: string)
    requires AllParse(deps + [dep]) && j < |deps|
    ensures AllParse(deps)
    ensures FirstWith(deps + [dep], j, v) <==> FirstWith(deps, j, v)
  {
    hide ParseKeyTarget;
    var more := deps + [dep];
    assert forall m | 0 <= m < |deps| :: deps[m] == more[m];
  }

  /** What binding a spec changes. */
  ghost predicate BoundTo(n: Names, n': Names, key: string, v: string) {
    && n'.key2val.Keys == n.key2val.Keys + {key} && n'.key2val[key] == v
    && (forall k | k in n.key2val :: n'.key2val[k] == n.key2val[k])
    && n'.val2key == if v in n.val2key then n.val2key else n.val2key[v := key]
  }

  lemma GetBinds(n: Names, dep: string)
    requires GetKey(n, dep).Ok?
    ensures ParseKeyTarget(dep).Ok? && BoundTo(n, GetKey(n, dep).value.0, GetKey(n, dep).value.1, ValueOf(dep))
  {
    hide ParseKeyTarget, KeyFor;
  }

  lemma ValuesNext(deps: seq<string>, keys: seq<string>, n: Names, dep: string, key: string, n': Names)
    requires AllParse(deps) && |keys| == |deps| && ParseKeyTarget(dep).Ok? && AllParse(deps + [dep])
    requires KnownValues(deps, keys, n) && BoundTo(n, n', key, ValueOf(dep))
    ensures KnownValues(deps + [dep], keys + [key], n')
  {
    hide ParseKeyTarget;
    assert Elems(keys + [key]) == Elems(keys) + {key};
    forall j | 0 <= j < |deps|
      ensures keys[j] in n.key2val
    {
      assert keys[j] in Elems(keys);
    }
  }

  lemma KnownNext(deps: seq<string>, keys: seq<string>, n: Names, dep: string, key: string, n': Names)
    requires Known(deps, keys, n) && GetKey(n, dep) == Ok((n', key))
    ensures Known(deps + [dep], keys + [key], n')
  {
    GetServes(n, dep);
    GetBinds(n, dep);
    BoundSize(n');
    hide GetKey, ParseKeyTarget, Consistent, Served, ValueOf, Elems, KnownFirsts, AllParse;
    ParsesNext(deps, dep);
    ValuesNext(deps, keys, n, dep, key, n');
    FirstsNext(deps, keys, n, dep, key, n');
    hide BoundTo;
  }

  lemma ParsesNext(deps: seq<string>, dep: string)
    requires AllParse(deps) && ParseKeyTarget(dep).Ok?
    ensures AllParse(deps + [dep])
  {
    hide ParseKeyTarget;
  }

  lemma FirstsNext(deps: seq<string>, keys: seq<string>, n: Names, dep: string, key: string, n': Names)
    requires AllParse(deps) && ParseKeyTarget(dep).Ok? && AllParse(deps + [dep]) && |keys| == |deps|
    requires KnownValues(deps, keys, n) && KnownFirsts(deps, keys, n) && BoundTo(n, n', key, ValueOf(dep))
    ensures KnownFirsts(deps + [dep], keys + [key], n')
  {
    hide ParseKeyTarget;
    var moreDeps, moreKeys := deps + [dep], keys + [key];
    forall v | v in n'.val2key
      ensures exists j | 0 <= j < |moreDeps| :: FirstWith(moreDeps, j, v) && n'.val2key[v] == moreKeys[j]
    {
      if v in n.val2key {
        var j :| 0 <= j < |deps| && FirstWith(deps, j, v) && n.val2key[v] == keys[j];
        FirstStays(deps, dep, j, v);
        assert moreKeys[j] == keys[j];
      } else {
        assert forall m | 0 <= m < |deps| :: moreDeps[m] == deps[m];
        assert moreDeps[|deps|] == dep && moreKeys[|deps|] == key;
        assert FirstWith(moreDeps, |deps|, v);
      }
    }
  }

  lemma RightKeysNext(deps: seq<string>, keys: seq<string>, dep: string, key: string)
    requires RightKeys(deps, keys) && ParseKeyTarget(dep).Ok? && RightKey(deps, keys, dep, key)
    ensures RightKeys(deps + [dep], keys + [key])
  {
    ParsesNext(deps, dep);
    hide ParseKeyTarget, RightKey;
    var moreDeps, moreKeys := deps + [dep], keys + [key];
    forall i | 0 <= i < |moreDeps|
      ensures RightKey(moreDeps[..i], moreKeys[..i], moreDeps[i], moreKeys[i])
    {
      if i < |deps| {
        assert moreDeps[..i] == deps[..i] && moreKeys[..i] == keys[..i];
      } else {
        assert moreDeps[..i] == deps && moreKeys[..i] == keys;
      }
    }
  }

  /** In a successful run every spec gets the right key. */
  lemma {:induction false} KeysAreRight(deps: seq<string>)
    requires GetAll(deps).Ok?
    ensures var (n, keys) := GetAll(deps).value; RightKeys(deps, keys) && Known(deps, keys, n)
  {
    if deps != [] {
      hide GetKey, Known, RightKeys, RightKey;
      var m := |deps| - 1;
      KeysAreRight(deps[..m]);
      var (n, keys) := GetAll(deps[..m]).value;
      var (n', key) := GetKey(n, deps[m]).value;
      GotKey(n, deps[m]);
      ParsesOf(deps[..m], keys, n);
      KeyForIsRight(deps[..m], keys, n, deps[m]);
      KnownNext(deps[..m], keys, n, deps[m], key, n');
      RightKeysNext(deps[..m], keys, deps[m], key);
      assert deps[..m] + [deps[m]] == deps;
    } else {
      NoNamesConsistent();
      assert Elems(GetAll(deps).value.1) == {};
    }
  }

  lemma ParsesOf(deps: seq<string>, keys: seq<string>, n: Names)
    requires Known(deps, keys, n)
    ensures AllParse(deps) && |keys| == |deps| && Consistent(n)
  {
  }

  lemma GotKey(n: Names, dep: string)
    requires GetKey(n, dep).Ok?
    ensures ParseKeyTarget(dep).Ok? && GetKey(n, dep).value.1 == KeyFor(n, ParseKeyTarget(dep).value)
  {
  }

  /** Exactly when one more spec is accepted: it has a target, and the right key for it was not given
      to a spec with another target. */
  lemma AcceptedExactly(deps: seq<string>, dep: string, key: string)
    requires GetAll(deps).Ok? && ParseKeyTarget(dep).Ok?
    requires RightKeys(deps, GetAll(deps).value.1) && RightKey(deps, GetAll(deps).value.1, dep, key)
    ensures GetAll(deps + [dep]).Ok? <==>
      forall i | 0 <= i < |deps| && GetAll(deps).value.1[i] == key :: ValueOf(deps[i]) == ValueOf(dep)
  {
    var (n, keys) := GetAll(deps).value;
    KeysAreRight(deps);
    GetAllSnoc(deps, dep);
    KeyForIsRight(deps, keys, n, dep);
    RightKeyUnique(deps, keys, dep, key, KeyFor(n, ParseKeyTarget(dep).value));
    BoundIffGiven(deps, keys, n, key);
    hide GetAll, ParseKeyTarget, RightKey, RightKeys, KeyFor, FirstWith;
  }

  lemma BoundIffGiven(deps: seq<string>, keys: seq<string>, n: Names, key: string)
    requires Known(deps, keys, n)
    ensures key in n.key2val <==> exists i :: 0 <= i < |keys| && keys[i] == key
  {
    hide ParseKeyTarget, Consistent, FirstWith;
    assert key in n.key2val <==> key in Elems(keys);
  }

  /** A spec without a target, or after a refused one, is refused. */
  lemma RefusedExactly(deps: seq<string>, dep: string)
    ensures GetAll(deps).Err? || ParseKeyTarget(dep).Err? ==> GetAll(deps + [dep]).Err?
  {
    GetAllSnoc(deps, dep);
    hide ParseKeyTarget, KeyFor, Bind;
  }

  /** A spec that has a target and asks for no key. */
  predicate Unasked(dep: string) {
    var r := ParseKeyTarget(dep);
    r.Ok? && AskedKey(r.value).None?
  }

  ghost function Values(deps: seq<string>): set<string>
    requires AllParse(deps)
  {
    set i | 0 <= i < |deps| :: ValueOf(deps[i])
  }

  /** Each spec has the key `b` and the number of different targets up to its own. */
  ghost predicate Numbered(deps: seq<string>, keys: seq<string>) {
    && AllParse(deps) && |keys| == |deps|
    && forall i, j | 0 <= i < |deps| && 0 <= j < |deps| && FirstWith(deps, j, ValueOf(deps[i])) ::
         keys[i] == "b" + Digits(|Values(deps[..j + 1])|)
  }

  lemma ValuesSnoc(deps: seq<string>, dep: string)
    requires AllParse(deps) && ParseKeyTarget(dep).Ok?
    ensures AllParse(deps + [dep]) && Values(deps + [dep]) == Values(deps) + {ValueOf(dep)}
  {
    hide ParseKeyTarget;
    var more := deps + [dep];
    assert forall i | 0 <= i < |deps| :: more[i] == deps[i];
    assert more[|deps|] == dep;
    forall v | v in Values(deps) + {ValueOf(dep)}
      ensures v in Values(more)
    {
      if v in Values(deps) {
        var i :| 0 <= i < |deps| && ValueOf(deps[i]) == v;
        assert ValueOf(more[i]) == v;
      } else {
        assert ValueOf(more[|deps|]) == v;
      }
    }
  }

  lemma {:induction false} ValuesGrow(deps: seq<string>, m: nat, n: nat)
    requires AllParse(deps) && m <= n <= |deps|
    ensures AllParse(deps[..m]) && AllParse(deps[..n]) && Values(deps[..m]) <= Values(deps[..n])
  {
    hide ParseKeyTarget;
    assert forall i | 0 <= i < m :: deps[..m][i] == deps[..n][i];
  }

  /** The first spec with a target adds one to the different targets. */
  lemma FirstCounts(deps: seq<string>, j: nat, v: string)
    requires AllParse(deps) && j < |deps| && FirstWith(deps, j, v)
    ensures AllParse(deps[..j]) && AllParse(deps[..j + 1]) && |Values(deps[..j + 1])| == |Values(deps[..j])| + 1
  {
    hide ParseKeyTarget;
    ValuesSnoc(deps[..j], deps[j]);
    assert deps[..j + 1] == deps[..j] + [deps[j]];
    assert v !in Values(deps[..j]);
  }

  /** Firsts with different targets count differently. */
  lemma FirstsDiffer(deps: seq<string>, j: nat, k: nat, v: string, w: string)
    requires AllParse(deps) && j < k < |deps| && FirstWith(deps, j, v) && FirstWith(deps, k, w)
    ensures AllParse(deps[..j + 1]) && AllParse(deps[..k + 1]) && |Values(deps[..j + 1])| < |Values(deps[..k + 1])|
  {
    FirstCounts(deps, k, w);
    ValuesGrow(deps, j + 1, k);
    SubsetSize(Values(deps[..j + 1]), Values(deps[..k]));
  }

  /** Two such specs have the same key exactly when they have the same target. */
  lemma SameKeyIff(deps: seq<string>, keys: seq<string>, i: nat, j: nat)
    requires Numbered(deps, keys) && i < |deps| && j < |deps|
    ensures keys[i] == keys[j] <==> ValueOf(deps[i]) == ValueOf(deps[j])
  {
    hide ParseKeyTarget, FirstWith, Values;
    var v, w := ValueOf(deps[i]), ValueOf(deps[j]);
    var a := FirstOf(deps, i, v);
    var b := FirstOf(deps, j, w);
    assert keys[i] == "b" + Digits(|Values(deps[..a + 1])|);
    assert keys[j] == "b" + Digits(|Values(deps[..b + 1])|);
    if keys[i] == keys[j] {
      NumbersDiffer(|Values(deps[..a + 1])|, |Values(deps[..b + 1])|);
      if a < b {
        FirstsDiffer(deps, a, b, v, w);
      } else if b < a {
        FirstsDiffer(deps, b, a, w, v);
      }
      FirstHas(deps, a, v);
      FirstHas(deps, b, w);
    } else if v == w {
      FirstsMeet(deps, a, b, v);
    }
  }

  lemma FirstHas(deps: seq<string>, j: nat, v: string)
    requires AllParse(deps) && j < |deps| && FirstWith(deps, j, v)
    ensures ValueOf(deps[j]) == v
  {
  }

  lemma FirstsMeet(deps: seq<string>, j: nat, k: nat, v: string)
    requires AllParse(deps) && j < |deps| && k < |deps| && FirstWith(deps, j, v) && FirstWith(deps, k, v)
    ensures j == k
  {
  }

  lemma NumbersDiffer(m: nat, n: nat)
    requires "b" + Digits(m) == "b" + Digits(n)
    ensures m == n
  {
    assert ("b" + Digits(m))[1..] == Digits(m) && ("b" + Digits(n))[1..] == Digits(n);
    DigitsDiffer(m, n);
  }

  /** A number beyond the different targets so far has not been used. */
  lemma NumberUnused(deps: seq<string>, keys: seq<string>, i: nat, m: nat)
    requires Numbered(deps, keys) && i < |deps| && m > |Values(deps)|
    ensures keys[i] != "b" + Digits(m)
  {
    hide ParseKeyTarget, FirstWith, Values, Digits;
    var j := FirstOf(deps, i, ValueOf(deps[i]));
    assert keys[i] == "b" + Digits(|Values(deps[..j + 1])|);
    ValuesGrow(deps, j + 1, |deps|);
    assert deps[..|deps|] == deps;
    SubsetSize(Values(deps[..j + 1]), Values(deps));
    if keys[i] == "b" + Digits(m) {
      NumbersDiffer(m, |Values(deps[..j + 1])|);
    }
  }

  lemma LastNotFirst(deps: seq<string>, dep: string, j: nat)
    requires AllParse(deps + [dep]) && j < |deps| && ValueOf((deps + [dep])[j]) == ValueOf((deps + [dep])[|deps|])
    ensures forall v :: !FirstWith(deps + [dep], |deps|, v)
  {
    hide ParseKeyTarget;
  }

  lemma NumberedSeen(deps: seq<string>, keys: seq<string>, dep: string, j: nat)
    requires Numbered(deps, keys) && ParseKeyTarget(dep).Ok? && j < |deps| && FirstWith(deps, j, ValueOf(dep))
    ensures Numbered(deps + [dep], keys + [keys[j]])
    ensures Values(deps + [dep]) == Values(deps) && Elems(keys + [keys[j]]) == Elems(keys)
  {
    hide ParseKeyTarget;
    ValuesSnoc(deps, dep);
    FirstHas(deps, j, ValueOf(dep));
    assert ValueOf(deps[j]) in Values(deps);
    var moreDeps, moreKeys := deps + [dep], keys + [keys[j]];
    hide Values;
    LastNotFirst(deps, dep, j);
    assert moreDeps[|deps|] == dep && forall a | 0 <= a < |deps| :: moreDeps[a] == deps[a];
    forall a, b | 0 <= a < |moreDeps| && 0 <= b < |moreDeps| && FirstWith(moreDeps, b, ValueOf(moreDeps[a]))
      ensures moreKeys[a] == "b" + Digits(|Values(moreDeps[..b + 1])|)
    {
      FirstStays(deps, dep, b, ValueOf(moreDeps[a]));
      assert moreDeps[..b + 1] == deps[..b + 1];
      if a == |deps| {
        FirstsMeet(deps, j, b, ValueOf(dep));
        assert FirstWith(deps, j, ValueOf(deps[j]));
      }
    }
  }

  lemma NumberedNew(deps: seq<string>, keys: seq<string>, dep: string)
    requires Numbered(deps, keys) && ParseKeyTarget(dep).Ok? && |Elems(keys)| == |Values(deps)|
    requires forall j | 0 <= j < |deps| :: ValueOf(deps[j]) != ValueOf(dep)
    ensures var key := "b" + Digits(|Elems(keys)| + 1);
      && Numbered(deps + [dep], keys + [key])
      && |Elems(keys + [key])| == |Elems(keys)| + 1 == |Values(deps + [dep])|
  {
    hide ParseKeyTarget, Digits;
    var key := "b" + Digits(|Elems(keys)| + 1);
    ValuesSnoc(deps, dep);
    assert ValueOf(dep) !in Values(deps);
    forall i | 0 <= i < |deps|
      ensures keys[i] != key
    {
      NumberUnused(deps, keys, i, |Elems(keys)| + 1);
    }
    assert Elems(keys + [key]) == Elems(keys) + {key} && key !in Elems(keys);
    NumberedLast(deps, keys, dep, key);
  }

  lemma NumberedLast(deps: seq<string>, keys: seq<string>, dep: string, key: string)
    requires Numbered(deps, keys) && ParseKeyTarget(dep).Ok? && AllParse(deps + [dep])
    requires key == "b" + Digits(|Values(deps + [dep])|)
    requires forall j | 0 <= j < |deps| :: ValueOf(deps[j]) != ValueOf(dep)
    ensures Numbered(deps + [dep], keys + [key])
  {
    hide ParseKeyTarget, Digits, Values;
    var moreDeps, moreKeys := deps + [dep], keys + [key];
    assert moreDeps[|deps|] == dep && forall a | 0 <= a < |deps| :: moreDeps[a] == deps[a];
    forall a, b | 0 <= a < |moreDeps| && 0 <= b < |moreDeps| && FirstWith(moreDeps, b, ValueOf(moreDeps[a]))
      ensures moreKeys[a] == "b" + Digits(|Values(moreDeps[..b + 1])|)
    {
      if b == |deps| {
        assert moreDeps[..b + 1] == moreDeps;
      } else {
        FirstStays(deps, dep, b, ValueOf(moreDeps[a]));
        assert moreDeps[..b + 1] == deps[..b + 1];
      }
    }
  }

  /** Specs that ask for no key are always accepted, and the m-th different target gets the key `b` and
      the digits of m. */
  lemma {:induction false} UnaskedAccepted(deps: seq<string>)
    requires forall i | 0 <= i < |deps| :: Unasked(deps[i])
    ensures GetAll(deps).Ok? && Numbered(deps, GetAll(deps).value.1)
    ensures |Elems(GetAll(deps).value.1)| == |Values(deps)|
  {
    if deps == [] {
      assert Elems(GetAll(deps).value.1) == {} == Values(deps);
    } else {
      var m := |deps| - 1;
      var before, dep := deps[..m], deps[m];
      assert deps == before + [dep];
      assert forall i | 0 <= i < m :: before[i] == deps[i];
      UnaskedAccepted(before);
      assert Unasked(dep);
      UnaskedNext(before, GetAll(before).value.1, dep);
    }
  }

  /** An accepted spec gets its right key. */
  lemma AcceptedWith(deps: seq<string>, dep: string, key: string)
    requires GetAll(deps).Ok? && ParseKeyTarget(dep).Ok?
    requires RightKeys(deps, GetAll(deps).value.1) && RightKey(deps, GetAll(deps).value.1, dep, key)
    requires forall i | 0 <= i < |deps| && GetAll(deps).value.1[i] == key :: ValueOf(deps[i]) == ValueOf(dep)
    ensures GetAll(deps + [dep]).Ok? && GetAll(deps + [dep]).value.1 == GetAll(deps).value.1 + [key]
  {
    AcceptedExactly(deps, dep, key);
    GetAllSnoc(deps, dep);
    var (n, keys) := GetAll(deps).value;
    KeysAreRight(deps);
    KeyForIsRight(deps, keys, n, dep);
    RightKeyUnique(deps, keys, dep, key, KeyFor(n, ParseKeyTarget(dep).value));
    hide RightKey, RightKeys, ParseKeyTarget, KeyFor, Known;
  }

  lemma UnaskedSeen(deps: seq<string>, dep: string, k: nat)
    requires GetAll(deps).Ok? && RightKeys(deps, GetAll(deps).value.1) && Numbered(deps, GetAll(deps).value.1) && Unasked(dep)
    requires k < |deps| && FirstWith(deps, k, ValueOf(dep))
    ensures var keys := GetAll(deps).value.1; GetAll(deps + [dep]).Ok? && GetAll(deps + [dep]).value.1 == keys + [keys[k]]
  {
    var keys := GetAll(deps).value.1;
    assert RightKey(deps, keys, dep, keys[k]);
    FirstHas(deps, k, ValueOf(dep));
    hide *;
    forall i | 0 <= i < |deps| && keys[i] == keys[k]
      ensures ValueOf(deps[i]) == ValueOf(dep)
    {
      SameKeyIff(deps, keys, i, k);
    }
    AcceptedWith(deps, dep, keys[k]);
  }

  lemma NextUnused(deps: seq<string>, keys: seq<string>)
    requires Numbered(deps, keys) && |Elems(keys)| == |Values(deps)|
    ensures forall i | 0 <= i < |keys| :: keys[i] != "b" + Digits(|Elems(keys)| + 1)
  {
    assert |keys| == |deps|;
    hide Numbered, Values, Digits;
    forall i | 0 <= i < |keys|
      ensures keys[i] != "b" + Digits(|Elems(keys)| + 1)
    {
      NumberUnused(deps, keys, i, |Elems(keys)| + 1);
    }
  }

  lemma NewIsRight(deps: seq<string>, keys: seq<string>, dep: string)
    requires AllParse(deps) && |keys| == |deps| && Unasked(dep)
    requires forall j | 0 <= j < |deps| :: ValueOf(deps[j]) != ValueOf(dep)
    ensures RightKey(deps, keys, dep, "b" + Digits(|Elems(keys)| + 1))
  {
    hide ParseKeyTarget, AskedKey, Digits, FirstWith;
  }

  lemma UnaskedNew(deps: seq<string>, keys: seq<string>, dep: string)
    requires GetAll(deps).Ok? && keys == GetAll(deps).value.1 && RightKeys(deps, keys) && Numbered(deps, keys)
    requires |Elems(keys)| == |Values(deps)| && Unasked(dep)
    requires forall j | 0 <= j < |deps| :: ValueOf(deps[j]) != ValueOf(dep)
    ensures GetAll(deps + [dep]).Ok? && GetAll(deps + [dep]).value.1 == keys + ["b" + Digits(|Elems(keys)| + 1)]
  {
    assert AllParse(deps) && |keys| == |deps|;
    hide ParseKeyTarget, AskedKey, Digits, FirstWith, GetAll, RightKey, RightKeys, Numbered, Values, ValueOf;
    NewIsRight(deps, keys, dep);
    NextUnused(deps, keys);
    AcceptedWith(deps, dep, "b" + Digits(|Elems(keys)| + 1));
  }

  lemma UnaskedNext(deps: seq<string>, keys: seq<string>, dep: string)
    requires GetAll(deps).Ok? && keys == GetAll(deps).value.1 && Numbered(deps, keys) && Unasked(dep)
    requires |Elems(keys)| == |Values(deps)|
    ensures GetAll(deps + [dep]).Ok?
    ensures var more := GetAll(deps + [dep]).value.1; Numbered(deps + [dep], more) && |Elems(more)| == |Values(deps + [dep])|
  {
    KeysAreRight(deps);
    hide GetAll, AskedKey, ParseKeyTarget, Values, Digits, RightKeys, Known, Numbered;
    if j :| 0 <= j < |deps| && ValueOf(deps[j]) == ValueOf(dep) {
      var k := FirstOf(deps, j, ValueOf(dep));
      hide FirstWith, ValueOf;
      UnaskedSeen(deps, dep, k);
      NumberedSeen(deps, keys, dep, k);
    } else {
      hide FirstWith, ValueOf;
      UnaskedNew(deps, keys, dep);
      NumberedNew(deps, keys, dep);
    }
  }

  /** A new key meets one that was given before exactly when an earlier spec asked for it. */
  lemma NewKeyMeets(deps: seq<string>, keys: seq<string>, dep: string)
    requires GetAll(deps).Ok? && keys == GetAll(deps).value.1 && Unasked(dep) && AllParse(deps)
    requires forall j | 0 <= j < |deps| :: ValueOf(deps[j]) != ValueOf(dep)
    ensures GetAll(deps + [dep]).Err? <==> exists i | 0 <= i < |deps| :: AskedFor(deps[i], "b" + Digits(|Elems(keys)| + 1))
  {
    KeysAreRight(deps);
    NewIsRight(deps, keys, dep);
    hide ParseKeyTarget, AskedKey, Digits, FirstWith, GetAll, RightKey, RightKeys, ValueOf, AskedFor, Known;
    AcceptedExactly(deps, dep, "b" + Digits(|Elems(keys)| + 1));
    AskedIffGiven(deps, keys);
  }

  lemma AskedIffGiven(deps: seq<string>, keys: seq<string>)
    requires RightKeys(deps, keys)
    ensures var key := "b" + Digits(|Elems(keys)| + 1);
      (exists i | 0 <= i < |deps| :: AskedFor(deps[i], key)) <==> exists i | 0 <= i < |deps| :: keys[i] == key
  {
    var key := "b" + Digits(|Elems(keys)| + 1);
    assert |keys| == |deps|;
    hide RightKeys, AskedFor, Digits;
    if i :| 0 <= i < |deps| && AskedFor(deps[i], key) {
      AskedIsGiven(deps, keys, i, key);
    }
    if i :| 0 <= i < |deps| && keys[i] == key {
      AskedOrSmaller(deps, keys, i);
    }
  }

  predicate AskedFor(dep: string, key: string) {
    var r := ParseKeyTarget(dep);
    r.Ok? && AskedKey(r.value) == Some(key)
  }

  lemma AskedIsGiven(deps: seq<string>, keys: seq<string>, i: nat, key: string)
    requires RightKeys(deps, keys) && i < |deps| && AskedFor(deps[i], key)
    ensures keys[i] == key
  {
    hide ParseKeyTarget, AskedKey;
    assert RightKey(deps[..i], keys[..i], deps[i], keys[i]);
  }

  /** A key that was not asked for was new, or first got by an earlier spec. */
  lemma GivenIs(deps: seq<string>, keys: seq<string>, i: nat)
    requires RightKeys(deps, keys) && i < |deps|
    ensures AskedFor(deps[i], keys[i]) || (exists j | 0 <= j < i :: keys[j] == keys[i])
      || keys[i] == "b" + Digits(|Elems(keys[..i])| + 1)
  {
    hide ParseKeyTarget, AskedKey, Digits;
    assert RightKey(deps[..i], keys[..i], deps[i], keys[i]);
  }

  lemma {:induction false} AskedOrSmaller(deps: seq<string>, keys: seq<string>, i: nat)
    requires RightKeys(deps, keys) && i < |deps| && keys[i] == "b" + Digits(|Elems(keys)| + 1)
    ensures exists a | 0 <= a < |deps| :: AskedFor(deps[a], keys[i])
    decreases i
  {
    GivenIs(deps, keys, i);
    assert |keys| == |deps|;
    hide RightKeys, AskedFor, Digits;
    if j :| 0 <= j < i && keys[j] == keys[i] {
      AskedOrSmaller(deps, keys, j);
    } else if keys[i] == "b" + Digits(|Elems(keys[..i])| + 1) {
      NumbersDiffer(|Elems(keys[..i])| + 1, |Elems(keys)| + 1);
      NewIsMore(keys, i);
    }
  }

  /** A key that is there for the first time makes more different keys. */
  lemma NewIsMore(keys: seq<string>, i: nat)
    requires i < |keys| && forall j :: 0 <= j < i ==> keys[j] != keys[i]
    ensures |Elems(keys[..i])| < |Elems(keys)|
  {
    assert keys[i] !in Elems(keys[..i]);
    SubsetSize(Elems(keys[..i]) + {keys[i]}, Elems(keys));
  }

  // ---------------------------------------------------------------- the command

  /** A command as text and placeholders in turn, and the text after the last placeholder. */
  datatype Segments = Segments(texts: seq<string>, deps: seq<string>, tail: string)

  function Split(command: string): (s: Segments)
    ensures |s.texts| == |s.deps|
    decreases |command|
  {
    match NextPlaceholder(command)
    case None => Segments([], [], command)
    case Some((text, dep, rest)) =>
      var s := Split(rest);
      Segments([text] + s.texts, [dep] + s.deps, s.tail)
  }

  /** Texts and what stands between them, in turn. */
  function Weave(texts: seq<string>, between: seq<string>): string
    requires |texts| == |between|
  {
    if texts == [] then ""
    else
      var n := |texts| - 1;
      Weave(texts[..n], between[..n]) + texts[n] + between[n]
  }

  function Quoted(deps: seq<string>): seq<string> {
    seq(|deps|, i requires 0 <= i < |deps| => "%" + deps[i] + "%")
  }

  lemma {:induction false} WeaveFirst(text: string, b: string, texts: seq<string>, between: seq<string>)
    requires |texts| == |between|
    ensures Weave([text] + texts, [b] + between) == text + b + Weave(texts, between)
  {
    var n := |texts|;
    if n == 0 {
      assert [text] + texts == [text] && [b] + between == [b];
      assert Weave([text][..0], [b][..0]) == "";
    } else {
      WeaveFirst(text, b, texts[..n - 1], between[..n - 1]);
      assert ([text] + texts)[..n] == [text] + texts[..n - 1];
      assert ([b] + between)[..n] == [b] + between[..n - 1];
    }
  }

  /** The segments make up the command, and no placeholder is left in the tail. */
  lemma {:induction false} SegmentsWeaveBack(command: string)
    ensures var s := Split(command);
      command == Weave(s.texts, Quoted(s.deps)) + s.tail && NextPlaceholder(s.tail).None?
    decreases |command|
  {
    match NextPlaceholder(command)
    case None =>
    case Some((text, dep, rest)) =>
      hide NextPlaceholder, Weave;
      NextPlaceholderIff(command, text, dep, rest);
      SegmentsWeaveBack(rest);
      var s := Split(rest);
      WeaveFirst(text, "%" + dep + "%", s.texts, Quoted(s.deps));
      QuotedFirst(dep, s.deps);
      Regroup(text, dep, Weave(s.texts, Quoted(s.deps)), s.tail);
  }

  lemma QuotedFirst(dep: string, deps: seq<string>)
    ensures Quoted([dep] + deps) == ["%" + dep + "%"] + Quoted(deps)
  {
  }

  lemma Regroup(text: string, dep: string, w: string, tail: string)
    ensures text + "%" + dep + "%" + (w + tail) == text + ("%" + dep + "%") + w + tail
  {
  }

  function Specs(bound: seq<(string, string)>): seq<string> {
    seq(|bound|, i requires 0 <= i < |bound| => bound[i].0 + ":" + bound[i].1)
  }

  /** What desugaring yields: the specs of all bindings, and the command with a key for each
      placeholder. */
  function Desugared(orig: seq<string>, command: string): Result<(seq<string>, string), UsageError> {
    var s := Split(command);
    match GetAll(orig + s.deps)
    case Err(e) => Err(e)
    case Ok((n, keys)) => Ok((Specs(n.bound), Weave(s.texts, keys[|orig|..]) + s.tail))
  }

  /** In a desugared command every placeholder is replaced by a key that is bound to its target, all
      other text is as it was, no key is bound twice, and every spec given is bound too. */
  lemma PlaceholdersNamed(orig: seq<string>, command: string) returns (n: Names, keys: seq<string>)
    requires Desugared(orig, command).Ok?
    ensures var s := Split(command);
      && |keys| == |orig| + |s.deps| && Consistent(n)
      && Desugared(orig, command).value == (Specs(n.bound), Weave(s.texts, keys[|orig|..]) + s.tail)
      && command == Weave(s.texts, Quoted(s.deps)) + s.tail
      && (forall i | 0 <= i < |orig| :: Served(orig[i], keys[i], n))
      && (forall i | 0 <= i < |s.deps| :: Served(s.deps[i], keys[|orig| + i], n))
  {
    hide Consistent, Served, Specs, Weave, NextPlaceholder, GetKey;
    var s := Split(command);
    var all := orig + s.deps;
    AllServed(all);
    SegmentsWeaveBack(command);
    n, keys := GetAll(all).value.0, GetAll(all).value.1;
    forall i | 0 <= i < |s.deps|
      ensures Served(s.deps[i], keys[|orig| + i], n)
    {
      assert all[|orig| + i] == s.deps[i];
    }
    forall i | 0 <= i < |orig|
      ensures Served(orig[i], keys[i], n)
    {
      assert all[i] == orig[i];
    }
  }

  /** A written binding reads back as it was bound. */
  predicate ReadsBack(b: (string, string)) {
    ParseKeyTarget(b.0 + ":" + b.1) == Ok(KeyTarget(Some(b.0), b.1))
  }

  predicate Plain(b: (string, string)) {
    ':' !in b.0 && b.1 != "" && b.1[0] != ':'
  }

  lemma ReadsBackIff(b: (string, string))
    requires b.1 != ""
    ensures ReadsBack(b) <==> Plain(b)
  {
    KeyedIff(b.0 + ":" + b.1, b.0, b.1);
  }

  /** The target does not start with a colon, and the key the spec asks for, if any, has none. */
  predicate PlainSpec(dep: string) {
    var r := ParseKeyTarget(dep);
    r.Ok? ==> r.value.value[0] != ':' && (AskedKey(r.value).Some? ==> ':' !in AskedKey(r.value).value)
  }

  lemma PlainKey(n: Names, p: KeyTarget)
    requires Consistent(n) && (forall b :: b in n.bound ==> Plain(b)) && p.value != ""
    requires AskedKey(p).Some? ==> ':' !in AskedKey(p).value
    ensures ':' !in KeyFor(n, p)
  {
    hide AskedKey;
    var digits := Digits(|n.bound| + 1);
    assert AskedKey(p).None? && p.value in n.val2key ==> Plain((n.val2key[p.value], p.value));
  }

  lemma PlainBind(n: Names, key: string, value: string)
    requires Bind(n, key, value).Ok? && (forall b :: b in n.bound ==> Plain(b)) && Plain((key, value))
    ensures forall b :: b in Bind(n, key, value).value.bound ==> Plain(b)
  {
    hide Plain;
  }

  lemma PlainGet(n: Names, dep: string)
    requires Consistent(n) && (forall b :: b in n.bound ==> Plain(b)) && PlainSpec(dep) && GetKey(n, dep).Ok?
    ensures forall b :: b in GetKey(n, dep).value.0.bound ==> Plain(b)
  {
    hide Consistent, ParseKeyTarget, AskedKey, KeyFor, Bind;
    var p := ParseKeyTarget(dep).value;
    PlainKey(n, p);
    PlainBind(n, KeyFor(n, p), p.value);
  }

  /** Plain specs are bound to plain keys and targets. */
  lemma {:induction false} PlainBindings(deps: seq<string>)
    requires GetAll(deps).Ok? && forall dep :: dep in deps ==> PlainSpec(dep)
    ensures forall b :: b in GetAll(deps).value.0.bound ==> Plain(b)
  {
    if deps != [] {
      var m := |deps| - 1;
      hide Plain, PlainSpec, GetKey, Consistent, Served;
      PlainBindings(deps[..m]);
      AllServed(deps[..m]);
      PlainGet(GetAll(deps[..m]).value.0, deps[m]);
    }
  }

  lemma ServedPlain(dep: string, key: string, n: Names)
    requires Served(dep, key, n) && forall b :: b in n.bound ==> ReadsBack(b)
    ensures PlainSpec(dep)
  {
    hide AskedKey, ParseKeyTarget, ReadsBack, Plain;
    var b := (key, ParseKeyTarget(dep).value.value);
    ReadsBackIff(b);
    assert Plain(b);
    PlainServed(dep, key, n);
  }

  lemma PlainServed(dep: string, key: string, n: Names)
    requires Served(dep, key, n) && Plain((key, ParseKeyTarget(dep).value.value))
    ensures PlainSpec(dep)
  {
    hide AskedKey, ParseKeyTarget;
  }

  /** All bindings read back as they were bound exactly when no spec's target starts with a colon and
      no spec asks for a key that has one. */
  lemma BindingsReadBack(deps: seq<string>)
    requires GetAll(deps).Ok?
    ensures (forall b :: b in GetAll(deps).value.0.bound ==> ReadsBack(b)) <==>
      forall dep :: dep in deps ==> PlainSpec(dep)
  {
    var (n, keys) := GetAll(deps).value;
    hide GetAll, ReadsBack, PlainSpec, Served, Consistent, Plain;
    if forall dep :: dep in deps ==> PlainSpec(dep) {
      PlainBindings(deps);
      forall b | b in n.bound
        ensures ReadsBack(b)
      {
        assert Plain(b);
        PlainReadsBack(b);
      }
    }
    if forall b :: b in n.bound ==> ReadsBack(b) {
      AllServed(deps);
      forall dep | dep in deps
        ensures PlainSpec(dep)
      {
        var i :| 0 <= i < |deps| && deps[i] == dep;
        ServedPlain(dep, keys[i], n);
      }
    }
  }

  lemma PlainReadsBack(b: (string, string))
    requires Plain(b)
    ensures ReadsBack(b)
  {
    ReadsBackIff(b);
  }

  /** What desugaring writes for the targets reads back as what was bound, spec by spec, exactly when
      none of the specs and placeholders given has a target that starts with a colon or asks for a
      key that has one. */
  lemma WrittenReadsBack(orig: seq<string>, command: string)
    requires Desugared(orig, command).Ok?
    ensures var deps := orig + Split(command).deps;
      && GetAll(deps).Ok?
      && var bound, written := GetAll(deps).value.0.bound, Desugared(orig, command).value.0;
      && |written| == |bound|
      && ((forall i | 0 <= i < |bound| :: ParseKeyTarget(written[i]) == Ok(KeyTarget(Some(bound[i].0), bound[i].1))) <==>
          forall dep :: dep in deps ==> PlainSpec(dep))
  {
    var deps := orig + Split(command).deps;
    BindingsReadBack(deps);
    var bound := GetAll(deps).value.0.bound;
    hide GetAll, ParseKeyTarget, PlainSpec, Split, Weave;
    assert (forall b :: b in bound ==> ReadsBack(b)) <==> forall i | 0 <= i < |bound| :: ReadsBack(bound[i]);
  }

  /** One spec alone is bound under its key. */
  lemma OneSpec(dep: string, p: KeyTarget)
    requires ParseKeyTarget(dep) == Ok(p)
    ensures var key := KeyFor(NO_NAMES, p); Desugared([dep], "") == Ok(([key + ":" + p.value], ""))
  {
    hide ParseKeyTarget, KeyFor;
    var key := KeyFor(NO_NAMES, p);
    var n := Names(NO_NAMES.key2val[key := p.value], NO_NAMES.val2key[p.value := key], [(key, p.value)]);
    assert NO_NAMES.bound + [(key, p.value)] == n.bound;
    assert Bind(NO_NAMES, key, p.value) == Ok(n);
    assert GetKey(NO_NAMES, dep) == Ok((n, key));
    GetAllSnoc([], dep);
    assert [] + [dep] == [dep];
    assert Split("") == Segments([], [], "");
    assert [dep] + Split("").deps == [dep];
    var none: seq<string> := [];
    assert GetAll([]) == Ok((NO_NAMES, none)) && none + [key] == [key];
    assert GetAll([dep]) == Ok((n, [key]));
    assert Weave([], [key][1..]) + "" == "";
    assert Specs(n.bound) == [key + ":" + p.value];
  }

  /** A target that starts with two colons is bound, but what is written for it reads back without a
      key. */
  lemma DoubleColonLost()
    ensures Desugared(["::x"], "") == Ok((["b1:::x"], ""))
    ensures ParseKeyTarget("b1:::x") == Ok(KeyTarget(None, "b1:::x"))
  {
    var p := KeyTarget(None, "::x");
    assert Digits(1) == "1";
    assert KeyFor(NO_NAMES, p) == "b" + "1" == "b1";
    assert "b1" + ":" + "::x" == "b1:::x";
    assert Find("b1:::x", ':', 0) == 2;
    hide Digits, KeyFor;
    OneSpec("::x", p);
  }

  lemma SubpathAsked()
    ensures AskedKey(KeyTarget(Some(""), "a/b:c")) == Some("b:c")
  {
    var s := "a/b:c";
    assert FindTwice(s, ':', 0) == 5;
    assert FindTwice(s, '/', 0) == 5;
    hide FindTwice;
    assert Before(s, ':') == (None, s) && Before(s, '/') == (None, s);
    hide Before;
    assert Find(s, '/', 1) == 1;
  }

  /** A file with a colon in its name, asked for by itself, is bound under its name; what is written
      reads back as another file under another key. */
  lemma ColonMisread()
    ensures Desugared([":a/b:c"], "") == Ok((["b:c:a/b:c"], ""))
    ensures ParseKeyTarget("b:c:a/b:c") == Ok(KeyTarget(Some("b"), "c:a/b:c"))
  {
    hide ParseKeyTarget, AskedKey;
    var p := KeyTarget(Some(""), "a/b:c");
    assert "b" + ":" + "c:a/b:c" == "b:c:a/b:c" == "b:c" + ":" + "a/b:c";
    KeyedIff("b:c:a/b:c", "b", "c:a/b:c");
    assert "" + ":" + "a/b:c" == ":a/b:c";
    KeyedIff(":a/b:c", "", "a/b:c");
    SubpathAsked();
    OneSpec(":a/b:c", p);
  }

  lemma {:induction false} GetAllErr(deps: seq<string>, more: seq<string>)
    requires GetAll(deps).Err?
    ensures GetAll(deps + more) == Err(GetAll(deps).error)
  {
    hide GetKey;
    if more == [] {
      assert deps + more == deps;
    } else {
      var m := |more| - 1;
      GetAllErr(deps, more[..m]);
      assert (deps + more)[..|deps| + m] == deps + more[..m];
    }
  }

  /** The dictionaries and the list that the command builds up. */
  class Desugarer {
    var key2val: map<string, string>
    var val2key: map<string, string>
    var targetSpec: seq<string>
    ghost var bound: seq<(string, string)>

    ghost function View(): Names
      reads this
    {
      Names(key2val, val2key, bound)
    }

    ghost predicate Valid()
      reads this
    {
      targetSpec == Specs(bound)
    }

    constructor ()
      ensures Valid() && View() == NO_NAMES
    {
      key2val, val2key, targetSpec, bound := map[], map[], [], [];
    }

    method Get(dep: string) returns (r: Result<string, UsageError>)
      requires Valid()
      modifies this
      ensures Valid()
      ensures match GetKey(old(View()), dep)
        case Err(e) => r == Err(e)
        case Ok((n, key)) => r == Ok(key) && View() == n
    {
      hide ParseKeyTarget, ParseTargetSpec, Digits;
      var parsed := ParseKeyTarget(dep);
      if parsed.Err? {
        return Err(parsed.error);
      }
      var val := parsed.value.value;
      var key: string;
      if parsed.value.key == Some("") {
        var t := ParseTargetSpec(val);
        key := if t.subpath.Some? then t.subpath.value else t.bundle;
      } else if parsed.value.key == None {
        key := if val in val2key then val2key[val] else "b" + Digits(|targetSpec| + 1);
      } else {
        key := parsed.value.key.value;
      }
      assert key == KeyFor(View(), parsed.value);
      hide KeyFor;
      if val !in val2key {
        val2key := val2key[val := key];
      }
      if key in key2val {
        if key2val[key] != val {
          return Err(TwoValues(key, key2val[key], val));
        }
      } else {
        key2val := key2val[key := val];
        assert Specs(bound + [(key, val)]) == Specs(bound) + [key + ":" + val];
        targetSpec := targetSpec + [key + ":" + val];
        bound := bound + [(key, val)];
      }
      r := Ok(key);
    }
  }

  /** A spec that is refused decides the outcome. */
  lemma RefusedDecides(done: seq<string>, dep: string, more: seq<string>, n: Names, keys: seq<string>)
    requires GetAll(done) == Ok((n, keys)) && GetKey(n, dep).Err?
    ensures GetAll(done + ([dep] + more)) == Err(GetKey(n, dep).error)
  {
    hide GetKey;
    GetAllSnoc(done, dep);
    GetAllErr(done + [dep], more);
    assert done + [dep] + more == done + ([dep] + more);
  }

  lemma SplitNext(command: string, text: string, dep: string, rest: string)
    requires NextPlaceholder(command) == Some((text, dep, rest))
    ensures |rest| < |command|
    ensures Split(command) == Segments([text] + Split(rest).texts, [dep] + Split(rest).deps, Split(rest).tail)
  {
  }

  lemma WeaveSnoc(texts: seq<string>, between: seq<string>, text: string, b: string)
    requires |texts| == |between|
    ensures Weave(texts + [text], between + [b]) == Weave(texts, between) + text + b
  {
    assert (texts + [text])[..|texts|] == texts && (between + [b])[..|texts|] == between;
  }

  /** The segments of the whole command, part of which has been read. */
  ghost predicate ReadSoFar(whole: Segments, texts: seq<string>, deps: seq<string>, command: string) {
    var s := Split(command);
    |texts| == |deps| && whole == Segments(texts + s.texts, deps + s.deps, s.tail)
  }

  lemma ReadNext(whole: Segments, texts: seq<string>, deps: seq<string>, command: string,
                 text: string, dep: string, rest: string)
    requires ReadSoFar(whole, texts, deps, command) && NextPlaceholder(command) == Some((text, dep, rest))
    ensures ReadSoFar(whole, texts + [text], deps + [dep], rest) && |rest| < |command|
    ensures whole.deps == deps + ([dep] + Split(rest).deps)
  {
    SplitNext(command, text, dep, rest);
    hide Split, NextPlaceholder;
    Pass(texts, text, Split(rest).texts);
    Pass(deps, dep, Split(rest).deps);
  }

  lemma Pass(a: seq<string>, x: string, b: seq<string>)
    ensures a + ([x] + b) == (a + [x]) + b
  {
  }

  /** The first loop: binds the specs that come with the command. */
  method BindAll(d: Desugarer, orig: seq<string>, ghost more: seq<string>)
    returns (r: Result<(), UsageError>, ghost keys: seq<string>)
    requires d.Valid() && d.View() == NO_NAMES
    modifies d
    ensures d.Valid() && |keys| <= |orig|
    ensures r.Ok? ==> GetAll(orig) == Ok((d.View(), keys))
    ensures r.Err? ==> GetAll(orig + more) == Err(r.error)
  {
    hide GetKey, Desugarer.Valid;
    keys := [];
    for i := 0 to |orig|
      invariant d.Valid() && |keys| <= i
      invariant GetAll(orig[..i]) == Ok((d.View(), keys))
    {
      ghost var n := d.View();
      var key := d.Get(orig[i]);
      if key.Err? {
        RefusedDecides(orig[..i], orig[i], orig[i + 1..] + more, n, keys);
        assert orig + more == orig[..i] + ([orig[i]] + (orig[i + 1..] + more));
        return Err(key.error), keys;
      }
      GetAllSnoc(orig[..i], orig[i]);
      assert orig[..i] + [orig[i]] == orig[..i + 1];
      keys := keys + [key.value];
    }
    assert orig[..|orig|] == orig;
    r := Ok(());
  }

  /** Part of the command has been read: its placeholders are bound, and `buf` has its text with
      keys for placeholders. */
  ghost predicate Replacing(orig: seq<string>, keys0: seq<string>, whole: Segments, texts: seq<string>,
                            deps: seq<string>, got: seq<string>, buf: string, command: string, n: Names)
  {
    && ReadSoFar(whole, texts, deps, command) && |got| == |deps|
    && GetAll(orig + deps) == Ok((n, keys0 + got))
    && buf == Weave(texts, got)
  }

  lemma ReplacingStarts(orig: seq<string>, keys0: seq<string>, command: string, n: Names)
    requires GetAll(orig) == Ok((n, keys0))
    ensures Replacing(orig, keys0, Split(command), [], [], [], "", command, n)
  {
    hide Split, GetAll;
    assert orig + [] == orig && keys0 + [] == keys0;
    var s := Split(command);
    assert [] + s.texts == s.texts && [] + s.deps == s.deps;
  }

  lemma ReplacingNext(orig: seq<string>, keys0: seq<string>, whole: Segments, texts: seq<string>, deps: seq<string>,
                      got: seq<string>, buf: string, command: string, n: Names,
                      text: string, dep: string, rest: string)
    requires Replacing(orig, keys0, whole, texts, deps, got, buf, command, n)
    requires NextPlaceholder(command) == Some((text, dep, rest))
    ensures |rest| < |command|
    ensures GetKey(n, dep).Err? ==> GetAll(orig + whole.deps) == Err(GetKey(n, dep).error)
    ensures GetKey(n, dep).Ok? ==> var (n', key) := GetKey(n, dep).value;
      Replacing(orig, keys0, whole, texts + [text], deps + [dep], got + [key], buf + text + key, rest, n')
  {
    hide GetKey, Split, GetAll, Weave, NextPlaceholder;
    ReadNext(whole, texts, deps, command, text, dep, rest);
    if GetKey(n, dep).Err? {
      RefusedDecides(orig + deps, dep, Split(rest).deps, n, keys0 + got);
      assert orig + whole.deps == (orig + deps) + ([dep] + Split(rest).deps);
    } else {
      var (n', key) := GetKey(n, dep).value;
      GetAllSnoc(orig + deps, dep);
      WeaveSnoc(texts, got, text, key);
      assert orig + (deps + [dep]) == (orig + deps) + [dep];
      assert keys0 + (got + [key]) == (keys0 + got) + [key];
    }
  }

  lemma ReplacingEnds(orig: seq<string>, keys0: seq<string>, whole: Segments, texts: seq<string>, deps: seq<string>,
                      got: seq<string>, buf: string, command: string, n: Names)
    requires Replacing(orig, keys0, whole, texts, deps, got, buf, command, n)
    requires NextPlaceholder(command).None? && |keys0| == |orig|
    ensures whole == Segments(texts, deps, command)
    ensures GetAll(orig + whole.deps) == Ok((n, keys0 + got)) && (keys0 + got)[|orig|..] == got
    ensures buf == Weave(whole.texts, got)
  {
    hide GetAll, Weave;
    assert texts + [] == texts && deps + [] == deps;
  }

  /** The second loop: replaces the placeholders of the command one after the other. */
  method ReplaceAll(d: Desugarer, ghost orig: seq<string>, ghost keys0: seq<string>, command0: string)
    returns (r: Result<string, UsageError>)
    requires d.Valid() && GetAll(orig) == Ok((d.View(), keys0))
    modifies d
    ensures d.Valid()
    ensures var s := Split(command0);
      match GetAll(orig + s.deps)
      case Err(e) => r == Err(e)
      case Ok((n, keys)) => n == d.View() && r == Ok(Weave(s.texts, keys[|orig|..]) + s.tail)
  {
    assert |keys0| == |orig|;
    hide GetKey, Desugarer.Valid, NextPlaceholder, Weave, Split, GetAll, Replacing;
    var buf, command := "", command0;
    ghost var whole := Split(command0);
    ghost var texts: seq<string>, deps: seq<string>, got: seq<string> := [], [], [];
    ReplacingStarts(orig, keys0, command, d.View());
    while true
      invariant d.Valid()
      invariant Replacing(orig, keys0, whole, texts, deps, got, buf, command, d.View())
      decreases |command|
    {
      var next := NextPlaceholder(command);
      if next.None? {
        break;
      }
      var (text, dep, rest) := next.value;
      ReplacingNext(orig, keys0, whole, texts, deps, got, buf, command, d.View(), text, dep, rest);
      var key := d.Get(dep);
      if key.Err? {
        return Err(key.error);
      }
      texts, deps, got := texts + [text], deps + [dep], got + [key.value];
      buf, command := buf + text + key.value, rest;
    }
    ReplacingEnds(orig, keys0, whole, texts, deps, got, buf, command, d.View());
    r := Ok(buf + command);
  }

  method DesugarCommand(orig: seq<string>, command: string) returns (r: Result<(seq<string>, string), UsageError>)
    ensures r == Desugared(orig, command)
  {
    hide Split, GetAll, Weave, Specs;
    var d := new Desugarer();
    var bound, keys := BindAll(d, orig, Split(command).deps);
    if bound.Err? {
      return Err(bound.error);
    }
    var text := ReplaceAll(d, orig, keys, command);
    r := if text.Err? then Err(text.error) else Ok((d.targetSpec, text.value));
  }
}
