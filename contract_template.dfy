/** `ContractService.getByPath` and `ContractService.resolveContent`: a
    contract template's `{{path}}` placeholders are replaced by values looked
    up along a dotted path in the sale context. */
module ContractTemplate {
  import opened Wrappers
  import opened Text
  import JsNumber

  /** A JavaScript value. A number is given by its `String()` rendering in
      decimal notation; an object by its members in insertion order. */
  datatype JsValue =
    | Undefined
    | Null
    | Bool(b: bool)
    | Str(s: string)
    | Num(text: string)
    | Arr(elems: seq<JsValue>)
    | Obj(fields: seq<(string, JsValue)>)

  /** The numeric value of a number. */
  function NumValue(v: JsValue): JsNumber.Number
    requires v.Num?
  {
    JsNumber.ToNumber(v.text)
  }

  /** JavaScript truthiness: undefined, null, false, "", 0 and NaN are falsy. */
  predicate Truthy(v: JsValue) {
    match v
    case Undefined => false
    case Null => false
    case Bool(b) => b
    case Str(s) => s != []
    case Num(_) => JsNumber.Truthy(NumValue(v))
    case Arr(_) => true
    case Obj(_) => true
  }

  /** The member `key` of an object's member list, or undefined. */
  function Lookup(fields: seq<(string, JsValue)>, key: string): JsValue {
    if fields == [] then Undefined
    else if fields[0].0 == key then fields[0].1
    else Lookup(fields[1..], key)
  }

  /** A canonical array index: decimal digits without a leading zero. */
  predicate IsIndexKey(k: string) {
    k != [] && AllChars(k, IsDigit) && (k[0] != '0' || |k| == 1)
  }

  /** `v[key]` for the property keys the model knows: object members, array
      and string elements and their `length`. */
  function Get(v: JsValue, key: string): JsValue {
    match v
    case Obj(fs) => Lookup(fs, key)
    case Arr(es) =>
      if key == "length" then Num(JsNumber.NatToString(|es|))
      else if IsIndexKey(key) && JsNumber.DigitsValue(key) < |es| then es[JsNumber.DigitsValue(key)]
      else Undefined
    case Str(s) =>
      if key == "length" then Num(JsNumber.NatToString(|s|))
      else if IsIndexKey(key) && JsNumber.DigitsValue(key) < |s| then Str([s[JsNumber.DigitsValue(key)]])
      else Undefined
    case _ => Undefined
  }

  /** One step of the `reduce`: `acc && acc[key] !== undefined ? acc[key] : undefined`. */
  function PathStep(acc: JsValue, key: string): (r: JsValue)
    ensures !Truthy(acc) ==> r == Undefined
  {
    if Truthy(acc) && Get(acc, key) != Undefined then Get(acc, key) else Undefined
  }

  function Walk(acc: JsValue, keys: seq<string>): JsValue
    decreases |keys|
  {
    if keys == [] then acc else Walk(PathStep(acc, keys[0]), keys[1..])
  }

  /** `getByPath(obj, path)`: `path.split('.')` walked from `obj`. */
  function GetByPath(obj: JsValue, path: string): JsValue {
    Walk(obj, Split(path, '.'))
  }

  /** `String(v)`; inside an array, undefined and null elements are empty. */
  function ToStr(v: JsValue): string
    decreases v, 0
  {
    match v
    case Undefined => "undefined"
    case Null => "null"
    case Bool(b) => if b then "true" else "false"
    case Str(s) => s
    case Num(t) => t
    case Arr(es) => Join(seq(|es|, i requires 0 <= i < |es| => ElemStr(es[i])), ",")
    case Obj(_) => "[object Object]"
  }

  function ElemStr(v: JsValue): string
    decreases v, 1
  {
    if v.Undefined? || v.Null? then "" else ToStr(v)
  }

  /** What a placeholder becomes: nothing for undefined or null, the
      elements joined with ", " for an array, `json` of an object
      (`JSON.stringify` is a parameter) and `String` of anything else. */
  function Render(v: JsValue, json: JsValue -> string): string {
    match v
    case Undefined => ""
    case Null => ""
    case Arr(es) => Join(seq(|es|, i requires 0 <= i < |es| => ElemStr(es[i])), ", ")
    case Obj(_) => json(v)
    case _ => ToStr(v)
  }

  predicate NotClose(c: char) { c != '}' }

  /** `/{{\s*([^}]+?)\s*}}/g` at position `i`: "{{", at least one character
      other than '}', then "}}". The lazy group with the spaces around it
      trimmed is the whole inside, trimmed; `subst` gives its replacement. */
  function PlaceholderAt(s: string, i: nat, subst: string -> string): Match {
    if i + 1 < |s| && s[i] == '{' && s[i + 1] == '{' then
      CloseAt(s, i, Run(s, i + 2, NotClose), subst)
    else NoMatch
  }

  /** The placeholder opened at `i` whose inside is the `n` characters other
      than '}' after "{{": it matches when the inside is not empty and "}}"
      follows. */
  function CloseAt(s: string, i: nat, n: nat, subst: string -> string): Match
    requires i + 2 + n <= |s|
  {
    var f := i + 2 + n;
    if n > 0 && f + 1 < |s| && s[f + 1] == '}'
    then Match(f + 2 - i, subst(Trim(s[i + 2..f])))
    else NoMatch
  }

  /** The placeholder `{{path}}` as written in a template. */
  function Tag(path: string): (t: string)
    ensures |t| == |path| + 4
  {
    "{{" + path + "}}"
  }

  /** `content.replace(/{{\s*([^}]+?)\s*}}/g, (_m, g1) => subst(g1.trim()))`. */
  function Substitute(content: string, subst: string -> string): string {
    ReplaceAll(content, Placeholders(subst))
  }

  /** The matcher of the placeholder pattern, for one replacement function. */
  function Placeholders(subst: string -> string): (string, nat) -> Match {
    (s: string, i: nat) => PlaceholderAt(s, i, subst)
  }

  /** The replacement of one placeholder: the rendered value at its path. */
  function Placeholder(ctx: JsValue, json: JsValue -> string,
                       lookup: (JsValue, string) -> JsValue): string -> string
  {
    key => Render(lookup(ctx, key), json)
  }

  /** `content.replace(/{{…}}/g, …)` with a given path lookup. */
  function ResolveWith(content: string, ctx: JsValue, json: JsValue -> string,
                       lookup: (JsValue, string) -> JsValue): string
  {
    Substitute(content, Placeholder(ctx, json, lookup))
  }

  /** `resolveContent(content, ctx)` as written, with `getByPath`. */
  function ResolveContent(content: string, ctx: JsValue, json: JsValue -> string): string {
    ResolveWith(content, ctx, json, GetByPath)
  }

  /** The path lookup with the context's own dotted keys served first. */
  function GetByPathFixed(obj: JsValue, path: string): JsValue {
    if obj.Obj? && Lookup(obj.fields, path) != Undefined then Lookup(obj.fields, path)
    else GetByPath(obj, path)
  }

  /** `resolveContent` with the corrected lookup. */
  function ResolveContentFixed(content: string, ctx: JsValue, json: JsValue -> string): string {
    ResolveWith(content, ctx, json, GetByPathFixed)
  }

  /* ---------------- properties of the path lookup ---------------- */

  /** Once a step finds nothing, the rest of the path finds nothing. */
  lemma {:induction false} WalkUndefined(keys: seq<string>)
    ensures Walk(Undefined, keys) == Undefined
    decreases |keys|
  {
    if keys != [] { WalkUndefined(keys[1..]); }
  }

  /** Walking `a + b` walks `a`, then `b` from where `a` ended. */
  lemma {:induction false} WalkConcat(v: JsValue, a: seq<string>, b: seq<string>)
    ensures Walk(v, a + b) == Walk(Walk(v, a), b)
    decreases |a|
  {
    if a != [] {
      assert (a + b)[0] == a[0] && (a + b)[1..] == a[1..] + b;
      WalkConcat(PathStep(v, a[0]), a[1..], b);
    } else {
      assert a + b == b;
    }
  }

  /** A path without a dot is a single member lookup in an object. */
  lemma {:induction false} GetByPathPlain(fs: seq<(string, JsValue)>, key: string)
    requires '.' !in key
    ensures GetByPath(Obj(fs), key) == Lookup(fs, key)
  {
    SplitFromPlain(key, '.', []);
    assert [] + key == key;
  }

  /** A path "a.b" looks up `b` in the value found at `a`. */
  lemma {:induction false} GetByPathTwo(v: JsValue, a: string, b: string)
    requires '.' !in a && '.' !in b
    ensures GetByPath(v, a + "." + b) == PathStep(PathStep(v, a), b)
  {
    SplitFromConcat(a, b, '.', []);
    SplitFromPlain(b, '.', []);
    assert [] + a == a && [] + b == b;
    assert a + "." + b == a + ['.'] + b;
    var keys := Split(a + "." + b, '.');
    assert keys == [a, b];
    assert keys[1..] == [b] && keys[1..][1..] == [];
    calc {
      Walk(v, keys);
      Walk(PathStep(v, a), [b]);
      Walk(PathStep(PathStep(v, a), b), []);
    }
  }

  /** The sale context stores the item list text under the literal key
      "items.list" next to the array "items"; `getByPath` splits the path
      at the dot and asks the array for a member "list", so the placeholder
      `{{items.list}}` always resolves to nothing. */
  lemma {:induction false} ItemsListUnreachable(fs: seq<(string, JsValue)>, items: seq<JsValue>)
    requires Lookup(fs, "items") == Arr(items)
    ensures GetByPath(Obj(fs), "items.list") == Undefined
  {
    GetByPathTwo(Obj(fs), "items", "list");
    assert "items" + "." + "list" == "items.list";
    assert !IsIndexKey("list") by { assert !IsDigit("list"[0]); }
  }

  /** With the corrected lookup every member of the context is found under
      its own key, dotted or not. */
  lemma {:induction false} FixedFindsMembers(fs: seq<(string, JsValue)>, key: string)
    requires Lookup(fs, key) != Undefined
    ensures GetByPathFixed(Obj(fs), key) == Lookup(fs, key)
  {
  }

  /** The correction changes nothing for a path that is not a member name. */
  lemma {:induction false} FixedKeepsPaths(obj: JsValue, path: string)
    requires !obj.Obj? || Lookup(obj.fields, path) == Undefined
    ensures GetByPathFixed(obj, path) == GetByPath(obj, path)
  {
  }

  /** ... nor for a plain member name, which `getByPath` already finds. */
  lemma {:induction false} FixedAgreesOnPlainKeys(obj: JsValue, key: string)
    requires '.' !in key
    ensures GetByPathFixed(obj, key) == GetByPath(obj, key)
  {
    if obj.Obj? {
      GetByPathPlain(obj.fields, key);
      assert PathStep(obj, key) == Lookup(obj.fields, key);
    }
  }

  /* ---------------- properties of the replacement ---------------- */

  /** Text without '{' has no placeholder and is left unchanged. */
  lemma {:induction false} SubstituteNoPlaceholder(content: string, subst: string -> string)
    requires '{' !in content
    ensures Substitute(content, subst) == content
  {
    var f := Placeholders(subst);
    forall j | 0 <= j < |content| ensures f(content, j).NoMatch? {
      assert content[j] != '{';
    }
    ReplaceAllNoMatch(content, 0, f);
  }

  /** A placeholder between two texts without braces is replaced by
      `subst` of its trimmed path; the texts around it stay. */
  lemma {:induction false} SubstituteOne(pre: string, path: string, post: string, subst: string -> string)
    requires '{' !in pre && '{' !in post && '}' !in path && path != []
    ensures Substitute(pre + Tag(path) + post, subst) == pre + subst(Trim(path)) + post
  {
    var s := pre + Tag(path) + post;
    var p := |pre|;
    var e := p + 4 + |path|;
    assert s[..p] == pre;
    assert s[p..e] == Tag(path);
    assert s[e..] == post;
    SubstituteAt(s, p, path, subst);
  }

  /** The same, stated on positions of one text. */
  lemma {:induction false} SubstituteAt(s: string, p: nat, path: string, subst: string -> string)
    requires p + 4 + |path| <= |s| && s[p..p + 4 + |path|] == Tag(path)
    requires '{' !in s[..p] && '{' !in s[p + 4 + |path|..]
    requires '}' !in path && path != []
    ensures Substitute(s, subst) == s[..p] + subst(Trim(path)) + s[p + 4 + |path|..]
  {
    var e := p + 4 + |path|;
    assert s[0..p] == s[..p] && s[e..|s|] == s[e..];
    NoPlaceholderIn(s, 0, p, subst);
    NoPlaceholderIn(s, e, |s|, subst);
    PlaceholderMatches(s, p, path, subst);
    ReplaceAllOne(s, p, e, subst(Trim(path)), Placeholders(subst));
  }

  /** No placeholder starts in a stretch without '{'. */
  lemma {:induction false} NoPlaceholderIn(s: string, a: nat, b: nat, subst: string -> string)
    requires a <= b <= |s| && '{' !in s[a..b]
    ensures forall j :: a <= j < b ==> Placeholders(subst)(s, j).NoMatch?
  {
    forall j | a <= j < b ensures Placeholders(subst)(s, j).NoMatch? {
      assert s[j] == s[a..b][j - a];
    }
  }

  lemma {:induction false} PlaceholderMatches(s: string, p: nat, path: string, subst: string -> string)
    requires p + 4 + |path| <= |s| && s[p..p + 4 + |path|] == Tag(path)
    requires '}' !in path && path != []
    ensures PlaceholderAt(s, p, subst) == Match(|path| + 4, subst(Trim(path)))
  {
    WindowParts(s, p, path);
    PlaceholderPath(s, p, path, subst);
  }

  /** The same, from the pieces of the window. */
  lemma {:induction false} PlaceholderPath(s: string, p: nat, path: string, subst: string -> string)
    requires p + 4 + |path| <= |s| && '}' !in path && path != []
    requires s[p] == '{' && s[p + 1] == '{'
    requires s[p + 2 + |path|] == '}' && s[p + 3 + |path|] == '}'
    requires s[p + 2..p + 2 + |path|] == path
    ensures PlaceholderAt(s, p, subst) == Match(|path| + 4, subst(Trim(path)))
  {
    RunInside(s, p, path);
    PlaceholderInside(s, p, |path|, subst);
    SameReplacement(s[p + 2..p + 2 + |path|], path, subst);
  }

  /** The run of non-'}' characters after "{{" is exactly the path. */
  lemma {:induction false} RunInside(s: string, p: nat, path: string)
    requires p + 2 + |path| < |s| && s[p + 2 + |path|] == '}'
    requires s[p + 2..p + 2 + |path|] == path && '}' !in path
    ensures Run(s, p + 2, NotClose) == |path|
  {
    NoCloseInside(s, p, path);
    RunUpTo(s, p + 2, p + 2 + |path|, NotClose);
  }

  lemma {:induction false} NoCloseInside(s: string, p: nat, path: string)
    requires p + 2 + |path| <= |s| && s[p + 2..p + 2 + |path|] == path && '}' !in path
    ensures forall k :: p + 2 <= k < p + 2 + |path| ==> NotClose(s[k])
  {
    forall k | p + 2 <= k < p + 2 + |path| ensures NotClose(s[k]) {
      assert s[k] == path[k - p - 2];
    }
  }

  /** "{{", a non-empty run of `n` characters other than '}', then "}}". */
  lemma {:induction false} PlaceholderInside(s: string, p: nat, n: nat, subst: string -> string)
    requires n > 0 && p + 2 + n + 1 < |s| && s[p] == '{' && s[p + 1] == '{' && s[p + 2 + n + 1] == '}'
    requires Run(s, p + 2, NotClose) == n
    ensures PlaceholderAt(s, p, subst) == Match(n + 4, subst(Trim(s[p + 2..p + 2 + n])))
  {
    PlaceholderOpen(s, p, subst);
    CloseAtMatch(s, p, n, subst);
  }

  lemma SameReplacement(x: string, y: string, subst: string -> string)
    requires x == y
    ensures subst(Trim(x)) == subst(Trim(y))
  {
  }

  /** After "{{" the match is decided by the run of non-'}' characters. */
  lemma PlaceholderOpen(s: string, p: nat, subst: string -> string)
    requires p + 1 < |s| && s[p] == '{' && s[p + 1] == '{'
    ensures PlaceholderAt(s, p, subst) == CloseAt(s, p, Run(s, p + 2, NotClose), subst)
  {
  }

  /** A non-empty inside followed by "}}" is a match up to the closing braces. */
  lemma CloseAtMatch(s: string, p: nat, n: nat, subst: string -> string)
    requires n > 0 && p + 2 + n + 1 < |s| && s[p + 2 + n + 1] == '}'
    ensures CloseAt(s, p, n, subst) == Match(n + 4, subst(Trim(s[p + 2..p + 2 + n])))
  {
  }

  /** The pieces of a placeholder window `{{path}}` at `p`. */
  lemma {:induction false} WindowParts(s: string, p: nat, path: string)
    requires p + 4 + |path| <= |s| && s[p..p + 4 + |path|] == Tag(path)
    ensures s[p] == '{' && s[p + 1] == '{'
    ensures s[p + 2 + |path|] == '}' && s[p + 3 + |path|] == '}'
    ensures s[p + 2..p + 2 + |path|] == path
  {
    var w := s[p..p + 4 + |path|];
    assert s[p] == w[0] && s[p + 1] == w[1];
    assert s[p + 2 + |path|] == w[2 + |path|] && s[p + 3 + |path|] == w[3 + |path|];
    forall k | 0 <= k < |path| ensures s[p + 2..p + 2 + |path|][k] == path[k] {
      assert s[p + 2 + k] == w[2 + k];
    }
  }

  /** `resolveContent` replaces a placeholder by the rendering of the value
      at its trimmed path and leaves the text around it alone. */
  lemma {:induction false} ResolveOne(pre: string, path: string, post: string, ctx: JsValue, json: JsValue -> string)
    requires '{' !in pre && '{' !in post && '}' !in path && path != []
    ensures ResolveContent(pre + Tag(path) + post, ctx, json)
         == pre + Render(GetByPath(ctx, Trim(path)), json) + post
  {
    SubstituteOne(pre, path, post, Placeholder(ctx, json, GetByPath));
  }

  /** ... and leaves a text without placeholders unchanged. */
  lemma {:induction false} ResolveNoPlaceholder(content: string, ctx: JsValue, json: JsValue -> string)
    requires '{' !in content
    ensures ResolveContent(content, ctx, json) == content
  {
    SubstituteNoPlaceholder(content, Placeholder(ctx, json, GetByPath));
  }

  /** With the corrected lookup a placeholder naming a member of the context,
      dotted or not, gives that member's rendering. */
  lemma {:induction false} FixedResolvesMember(pre: string, key: string, post: string, fs: seq<(string, JsValue)>,
                            json: JsValue -> string)
    requires '{' !in pre && '{' !in post && '}' !in key && key != [] && Trim(key) == key
    requires Lookup(fs, key) != Undefined
    ensures ResolveContentFixed(pre + Tag(key) + post, Obj(fs), json)
         == pre + Render(Lookup(fs, key), json) + post
  {
    SubstituteOne(pre, key, post, Placeholder(Obj(fs), json, GetByPathFixed));
  }

  /** The key "items.list" has no brace and no surrounding whitespace. */
  lemma ItemsListKey()
    ensures '}' !in "items.list" && Trim("items.list") == "items.list"
  {
    var k := "items.list";
    assert !IsSpace(k[0]) && !IsSpace(k[|k| - 1]);
    assert TrimStart(k) == k;
    assert TrimEnd(k) == k;
  }

  /** In particular `{{items.list}}` gives the list text stored under that key. */
  lemma {:induction false} FixedResolvesItemsList(pre: string, post: string, fs: seq<(string, JsValue)>,
                               json: JsValue -> string)
    requires '{' !in pre && '{' !in post
    requires Lookup(fs, "items.list") != Undefined
    ensures ResolveContentFixed(pre + "{{items.list}}" + post, Obj(fs), json)
         == pre + Render(Lookup(fs, "items.list"), json) + post
  {
    ItemsListKey();
    FixedResolvesMember(pre, "items.list", post, fs, json);
    assert Tag("items.list") == "{{items.list}}";
  }
}
