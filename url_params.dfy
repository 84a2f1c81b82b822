/** The query-string builder: `joinParams` renders one parameter object as
    `key=value` pairs joined with `&`, and `joinUrlParams` appends any number
    of such objects to a URL with the `?`/`&` separator rule.

    A parameter object is the sequence of its own keys, in `Object.keys`
    order, each with its value slot. `snakeCase` and `encodeURIComponent`
    are supplied by the caller as `snake` and `encode`. */
module UrlParams {
  import opened Js
  import Seqs

  /** The own keys of one object with their value slots, in `Object.keys`
      order. A JavaScript object never lists a key twice; nothing below
      depends on that, so the type does not demand it. */
  type Params = seq<(string, Slot<string>)>

  /** The filter of `joinParams`: neither `undefined` nor `null`. */
  predicate IsKept(entry: (string, Slot<string>)) {
    entry.1.Value?
  }

  /** Template-literal conversion of a slot (`String(v)`). */
  function SlotText(v: Slot<string>): string {
    match v
    case Undefined => "undefined"
    case Null => "null"
    case Value(s) => s
  }

  /** One rendered pair: `${encode(snake(k))}=${encode(v)}`. */
  function Pair(entry: (string, Slot<string>), snake: string -> string, encode: string -> string): (r: string)
    ensures '=' in r
  {
    var r := encode(snake(entry.0)) + "=" + encode(SlotText(entry.1));
    assert r[|encode(snake(entry.0))|] == '=';
    r
  }

  /** `parts.join("&")`. */
  function Join(parts: seq<string>): (r: string)
    ensures parts == [] ==> r == ""
    ensures parts != [] ==> |parts[0]| <= |r| && r[..|parts[0]|] == parts[0]
  {
    if parts == [] then ""
    else if |parts| == 1 then parts[0]
    else parts[0] + "&" + Join(parts[1..])
  }

  /** `s.split("&")`, the inverse of `Join` on parts free of `&`. */
  function Split(s: string): (r: seq<string>)
    ensures r != []
    decreases |s|
  {
    var i := Seqs.IndexOf(s, '&');
    if i == -1 then [s] else [s[..i]] + Split(s[i + 1..])
  }

  /** `joinParams`: filter out `undefined`/`null`, render each kept key, join with `&`. */
  function JoinParams(params: Params, snake: string -> string, encode: string -> string): (r: string)
    ensures r == "" <==> forall i :: 0 <= i < |params| ==> !IsKept(params[i])
  {
    var kept := Seqs.Filter(params, IsKept);
    var parts := seq(|kept|, i requires 0 <= i < |kept| => Pair(kept[i], snake, encode));
    assert kept != [] ==> '=' in parts[0];
    Join(parts)
  }

  /** Splitting what `Join` produced gives back its parts. */
  lemma {:induction false} SplitJoin(parts: seq<string>)
    requires parts != []
    requires forall i :: 0 <= i < |parts| ==> '&' !in parts[i]
    ensures Split(Join(parts)) == parts
  {
    var s := Join(parts);
    var p := parts[0];
    if |parts| == 1 {
      assert Seqs.IndexOf(s, '&') == -1;
    } else {
      var rest := Join(parts[1..]);
      SplitJoin(parts[1..]);
      assert s == p + "&" + rest;
      FirstSeparatorAt(p, rest);
      assert s[..|p|] == p;
      assert s[|p| + 1..] == rest;
    }
  }

  /** The first `&` of `p + "&" + rest` is the one after `p` when `p` has none. */
  lemma FirstSeparatorAt(p: string, rest: string)
    requires '&' !in p
    ensures Seqs.IndexOf(p + "&" + rest, '&') == |p|
  {
    var s := p + "&" + rest;
    assert s[|p|] == '&';
    forall j | 0 <= j < |p| ensures s[j] != '&' {
      assert s[j] == p[j];
    }
  }

  /** The pairs of `joinParams` are exactly the kept keys, in key order: when
      `encode` never produces `&` (as `encodeURIComponent` does not), splitting
      the output on `&` recovers one rendered pair per kept key. */
  lemma JoinParamsPairs(params: Params, snake: string -> string, encode: string -> string)
    requires forall s: string, j :: 0 <= j < |encode(s)| ==> encode(s)[j] != '&'
    requires exists i :: 0 <= i < |params| && IsKept(params[i])
    ensures var kept := Seqs.Filter(params, IsKept);
      Split(JoinParams(params, snake, encode)) == seq(|kept|, i requires 0 <= i < |kept| => Pair(kept[i], snake, encode))
  {
    var kept := Seqs.Filter(params, IsKept);
    var parts := seq(|kept|, i requires 0 <= i < |kept| => Pair(kept[i], snake, encode));
    var i :| 0 <= i < |params| && IsKept(params[i]);
    assert params[i] in kept;
    forall k | 0 <= k < |parts| ensures '&' !in parts[k] {
      var a := encode(snake(kept[k].0));
      var b := encode(SlotText(kept[k].1));
      assert parts[k] == a + "=" + b;
      forall j | 0 <= j < |parts[k]| ensures parts[k][j] != '&' {
        if j < |a| {
          assert parts[k][j] == a[j];
        } else if j > |a| {
          assert parts[k][j] == b[j - |a| - 1];
        }
      }
    }
    SplitJoin(parts);
  }

  // ---------------------------------------------------------------------
  // joinUrlParams

  /** The guard `params && Object.keys(params).length`: present and with at
      least one key, whatever the keys' values. */
  predicate Appends(params: Option<Params>) {
    params.Some? && |params.value| > 0
  }

  /** One step of the `forEach`. */
  function Step(result: string, params: Option<Params>, snake: string -> string, encode: string -> string): string {
    if Appends(params)
    then result + (if '?' in result then "&" else "?") + JoinParams(params.value, snake, encode)
    else result
  }

  /** The result after the `forEach` has visited every object of `objs`. */
  function JoinUrl(url: string, objs: seq<Option<Params>>, snake: string -> string, encode: string -> string): (r: string)
    ensures |url| <= |r| && r[..|url|] == url
  {
    if objs == [] then url
    else
      var p := JoinUrl(url, objs[..|objs| - 1], snake, encode);
      var r := Step(p, objs[|objs| - 1], snake, encode);
      assert r[..|p|] == p;
      assert r[..|url|] == p[..|url|];
      r
  }

  /** `joinUrlParams(url, ...paramObjects)`. */
  method JoinUrlParams(url: string, paramObjects: seq<Option<Params>>, snake: string -> string, encode: string -> string)
    returns (result: string)
    ensures result == JoinUrl(url, paramObjects, snake, encode)
    ensures |url| <= |result| && result[..|url|] == url
    ensures result == url <==> forall i :: 0 <= i < |paramObjects| ==> !Appends(paramObjects[i])
  {
    result := url;
    var i := 0;
    while i < |paramObjects|
      invariant 0 <= i <= |paramObjects|
      invariant result == JoinUrl(url, paramObjects[..i], snake, encode)
    {
      var params := paramObjects[i];
      if params.Some? && |params.value| > 0 {
        result := result + (if '?' in result then "&" else "?") + JoinParams(params.value, snake, encode);
      }
      assert paramObjects[..i + 1][..i] == paramObjects[..i];
      i := i + 1;
    }
    assert paramObjects[..i] == paramObjects;
    UnchangedIffNothingAppends(url, paramObjects, snake, encode);
  }

  /** The URL comes back unchanged exactly when no object passes the guard;
      every object that passes adds at least its separator. */
  lemma {:induction false} UnchangedIffNothingAppends(url: string, objs: seq<Option<Params>>, snake: string -> string, encode: string -> string)
    ensures JoinUrl(url, objs, snake, encode) == url <==> forall i :: 0 <= i < |objs| ==> !Appends(objs[i])
    ensures |JoinUrl(url, objs, snake, encode)| >= |url|
  {
    if objs != [] {
      var prev := objs[..|objs| - 1];
      UnchangedIffNothingAppends(url, prev, snake, encode);
      if !Appends(objs[|objs| - 1]) {
        assert forall i :: 0 <= i < |prev| ==> prev[i] == objs[i];
        assert (forall i :: 0 <= i < |objs| ==> !Appends(objs[i])) <==> (forall i :: 0 <= i < |prev| ==> !Appends(prev[i]));
      }
    }
  }

  /** Once any object has been appended the result holds a `?`. */
  lemma {:induction false} QuestionMarkAfterAppend(url: string, objs: seq<Option<Params>>, snake: string -> string, encode: string -> string)
    requires '?' in url || exists i :: 0 <= i < |objs| && Appends(objs[i])
    ensures '?' in JoinUrl(url, objs, snake, encode)
  {
    if objs == [] {
    } else {
      var prev := objs[..|objs| - 1];
      var p := JoinUrl(url, prev, snake, encode);
      if '?' in url || exists i :: 0 <= i < |prev| && Appends(prev[i]) {
        QuestionMarkAfterAppend(url, prev, snake, encode);
        var k :| 0 <= k < |p| && p[k] == '?';
        assert JoinUrl(url, objs, snake, encode)[k] == '?';
      } else {
        assert Appends(objs[|objs| - 1]);
        UnchangedIffNothingAppends(url, prev, snake, encode);
        assert JoinUrl(url, objs, snake, encode)[|p|] == '?';
      }
    }
  }

  /** The separator rule: an object that passes the guard is joined with `&`
      when the URL already had a `?` or an earlier object was appended, and
      with `?` only when neither holds. */
  lemma SeparatorRule(url: string, objs: seq<Option<Params>>, params: Params, snake: string -> string, encode: string -> string)
    requires |params| > 0
    requires '?' in url || exists i :: 0 <= i < |objs| && Appends(objs[i])
    ensures JoinUrl(url, objs + [Some(params)], snake, encode)
         == JoinUrl(url, objs, snake, encode) + "&" + JoinParams(params, snake, encode)
  {
    QuestionMarkAfterAppend(url, objs, snake, encode);
    assert (objs + [Some(params)])[..|objs|] == objs;
  }

  /** The first object appended to a URL without `?` is joined with `?`. */
  lemma FirstSeparator(url: string, params: Params, snake: string -> string, encode: string -> string)
    requires |params| > 0 && '?' !in url
    ensures JoinUrl(url, [Some(params)], snake, encode) == url + "?" + JoinParams(params, snake, encode)
  {
    assert [Some(params)][..0] == [];
  }

  /** The guard counts keys, not kept keys: an object whose every value is
      `undefined` or `null` still appends a bare separator. */
  lemma BareSeparator(url: string, params: Params, snake: string -> string, encode: string -> string)
    requires |params| > 0
    requires forall i :: 0 <= i < |params| ==> !IsKept(params[i])
    ensures JoinUrl(url, [Some(params)], snake, encode) == url + (if '?' in url then "&" else "?")
  {
    assert [Some(params)][..0] == [];
  }
}
