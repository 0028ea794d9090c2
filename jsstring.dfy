/**
 * The few JavaScript string behaviours the handlers depend on:
 * truthiness of optional request fields, the `x || default` idiom and
 * `String.prototype.split` with a one-character separator.
 */
module JsString {
  import opened Wrappers

  /** `!!v` for an optional string field: `undefined`, `null` and `""` are falsy. */
  predicate Truthy(v: Option<string>)
  {
    v.Some? && v.value != ""
  }

  /** `v || null`: a falsy field is stored as SQL NULL. */
  function OrNull(v: Option<string>): (r: Option<string>)
    ensures Truthy(v) ==> r == v
    ensures !Truthy(v) ==> r == None
    ensures r.Some? ==> r.value != ""
  {
    if Truthy(v) then v else None
  }

  /**
   * `v || d`: the field's value when it is truthy, otherwise the default;
   * with a non-empty default the result is never falsy.
   */
  function OrElse(v: Option<string>, d: string): (r: string)
    ensures OrNull(v) == Some(r) || (OrNull(v) == None && r == d)
    ensures d != "" ==> r != ""
    ensures r == "" <==> !Truthy(v) && d == ""
  {
    if Truthy(v) then v.value else d
  }

  /** `s.split(sep)`: every occurrence of `sep` starts a new part; `"".split(sep)` is `[""]`. */
  function Split(s: string, sep: char): (parts: seq<string>)
    ensures |parts| >= 1
    decreases |s|
  {
    if |s| == 0 then [""]
    else
      var rest := Split(s[1..], sep);
      if s[0] == sep then [""] + rest
      else [[s[0]] + rest[0]] + rest[1..]
  }

  /** `parts.join(sep)`, the inverse of `Split`. */
  function Join(parts: seq<string>, sep: char): string
  {
    if |parts| == 0 then ""
    else if |parts| == 1 then parts[0]
    else parts[0] + [sep] + Join(parts[1..], sep)
  }

  lemma JoinCons(c: char, parts: seq<string>, sep: char)
    requires |parts| >= 1
    ensures Join([[c] + parts[0]] + parts[1..], sep) == [c] + Join(parts, sep)
  {
    var q := [[c] + parts[0]] + parts[1..];
    assert q[1..] == parts[1..];
  }

  /** Joining the parts back with the separator gives the original string. */
  lemma {:induction false} JoinSplit(s: string, sep: char)
    ensures Join(Split(s, sep), sep) == s
    decreases |s|
  {
    if |s| > 0 {
      var rest := Split(s[1..], sep);
      JoinSplit(s[1..], sep);
      if s[0] == sep {
        var q := [""] + rest;
        assert q[1..] == rest;
        assert [s[0]] + s[1..] == s;
      } else {
        JoinCons(s[0], rest, sep);
        assert [s[0]] + s[1..] == s;
      }
    }
  }

  /** No part contains the separator. */
  lemma {:induction false} SplitPartsFree(s: string, sep: char)
    ensures forall i :: 0 <= i < |Split(s, sep)| ==> sep !in Split(s, sep)[i]
    decreases |s|
  {
    if |s| > 0 {
      SplitPartsFree(s[1..], sep);
    }
  }

  /** A string without the separator is a single part. */
  lemma {:induction false} SplitFree(t: string, sep: char)
    requires sep !in t
    ensures Split(t, sep) == [t]
    decreases |t|
  {
    if |t| > 0 {
      SplitFree(t[1..], sep);
      assert [t[0]] + t[1..] == t;
    }
  }

  /** A separator-free prefix followed by the separator is split off as the first part. */
  lemma {:induction false} SplitAfter(a: string, t: string, sep: char)
    requires sep !in a
    ensures Split(a + [sep] + t, sep) == [a] + Split(t, sep)
    decreases |a|
  {
    var s := a + [sep] + t;
    if |a| == 0 {
      assert s[0] == sep && s[1..] == t;
    } else {
      assert s[0] == a[0];
      assert s[1..] == a[1..] + [sep] + t;
      SplitAfter(a[1..], t, sep);
      assert [a[0]] + a[1..] == a;
    }
  }

  /** Splitting on `sep` gives exactly `[a, t]` when the string is `a`, `sep`, `t` with neither part holding `sep`. */
  lemma SplitTwoIff(s: string, a: string, t: string, sep: char)
    ensures Split(s, sep) == [a, t] <==> (s == a + [sep] + t && sep !in a && sep !in t)
  {
    if Split(s, sep) == [a, t] {
      JoinSplit(s, sep);
      SplitPartsFree(s, sep);
      assert Split(s, sep)[0] == a && Split(s, sep)[1] == t;
      assert Join([a, t], sep) == a + [sep] + t by {
        assert [a, t][1..] == [t];
      }
    }
    if s == a + [sep] + t && sep !in a && sep !in t {
      SplitAfter(a, t, sep);
      SplitFree(t, sep);
    }
  }
}
