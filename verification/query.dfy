/**
 The query-string part of a URL, as the request builders produce it:
 `key=value` fields joined by `&`, values spliced in verbatim (no percent
 encoding). Besides the joining used by the builders, this module defines
 its partner, a parser that splits on `&` and then at the first `=`, and
 proves that parsing undoes joining for every non-empty list of fields in
 which no key or value contains `&` and no key contains `=`.
 */
module Query {
  import opened Wrappers

  /** The separator between fields. */
  const Sep: char := '&'

  /** The separator between a key and its value. */
  const Eq: char := '='

  /** One `key=value` field of a query string. */
  datatype Field = Field(key: string, value: string)

  /** The text of one field. */
  function Render(f: Field): string
  {
    f.key + [Eq] + f.value
  }

  /** The text of every field, in order. */
  function RenderAll(fs: seq<Field>): (pieces: seq<string>)
    ensures |pieces| == |fs|
    ensures forall i :: 0 <= i < |fs| ==> pieces[i] == Render(fs[i])
  {
    if |fs| == 0 then [] else [Render(fs[0])] + RenderAll(fs[1..])
  }

  /** The pieces joined by the separator (Python's `"&".join(pieces)`). */
  function Unsplit(pieces: seq<string>): string
  {
    if |pieces| == 0 then ""
    else if |pieces| == 1 then pieces[0]
    else pieces[0] + [Sep] + Unsplit(pieces[1..])
  }

  /** The query string of a sequence of fields. */
  function Join(fs: seq<Field>): string
  {
    Unsplit(RenderAll(fs))
  }

  /**
   The text between separators (Python's `s.split("&")`): never empty, no
   piece holds a separator, and joining the pieces again gives `s` back.
   */
  function Split(s: string): (pieces: seq<string>)
    ensures |pieces| >= 1
    ensures forall i :: 0 <= i < |pieces| ==> Sep !in pieces[i]
    ensures Unsplit(pieces) == s
  {
    if |s| == 0 then [""]
    else
      var rest := Split(s[1..]);
      if s[0] == Sep then
        assert [Sep] + s[1..] == s;
        [""] + rest
      else
        var pieces := [[s[0]] + rest[0]] + rest[1..];
        assert pieces[1..] == rest[1..];
        assert [s[0]] + s[1..] == s;
        pieces
  }

  /** The field a piece of text denotes: key before the first `=`, value after it. */
  function ParseField(piece: string): (r: Option<Field>)
    ensures r.Some? ==> Eq !in r.value.key && Render(r.value) == piece
  {
    if |piece| == 0 then None
    else if piece[0] == Eq then
      assert [Eq] + piece[1..] == piece;
      Some(Field("", piece[1..]))
    else
      match ParseField(piece[1..])
      case None => None
      case Some(f) =>
        assert [piece[0]] + piece[1..] == piece;
        Some(Field([piece[0]] + f.key, f.value))
  }

  /** Every piece parsed as a field; none if some piece has no `=`. */
  function ParseAll(pieces: seq<string>): (r: Option<seq<Field>>)
    ensures r.Some? ==> |r.value| == |pieces|
    ensures r.Some? ==> RenderAll(r.value) == pieces
  {
    if |pieces| == 0 then Some([])
    else
      match ParseField(pieces[0])
      case None => None
      case Some(f) =>
        match ParseAll(pieces[1..])
        case None => None
        case Some(fs) =>
          assert [pieces[0]] + pieces[1..] == pieces;
          Some([f] + fs)
  }

  /** The fields of a query string. */
  function ParseQuery(q: string): Option<seq<Field>>
  {
    ParseAll(Split(q))
  }

  /** Fields that joining and parsing keep apart: no `&` anywhere, no `=` in a key. */
  predicate Separable(fs: seq<Field>)
  {
    forall i :: 0 <= i < |fs| ==>
      Sep !in fs[i].key && Sep !in fs[i].value && Eq !in fs[i].key
  }

  /** The keys of the fields, in order. */
  function Keys(fs: seq<Field>): (ks: seq<string>)
    ensures |ks| == |fs|
    ensures forall i :: 0 <= i < |fs| ==> ks[i] == fs[i].key
  {
    if |fs| == 0 then [] else [fs[0].key] + Keys(fs[1..])
  }

  /** `t` occurs somewhere in `s` as a contiguous substring (Python's `t in s`). */
  predicate Contains(s: string, t: string)
    decreases |s|
  {
    t <= s || (|s| > 0 && Contains(s[1..], t))
  }

  /** `s` ends with `t` (Python's `s.endswith(t)`). */
  predicate EndsWith(s: string, t: string)
  {
    |t| <= |s| && s[|s| - |t|..] == t
  }

  /** Text with no separator is a single piece. */
  lemma {:induction false} SplitNoSep(s: string)
    requires Sep !in s
    ensures Split(s) == [s]
  {
    if |s| > 0 {
      SplitNoSep(s[1..]);
      assert [s[0]] + s[1..] == s;
    }
  }

  /** A separator-free prefix followed by a separator comes off as the first piece. */
  lemma {:induction false} SplitAfterPiece(a: string, b: string)
    requires Sep !in a
    ensures Split(a + [Sep] + b) == [a] + Split(b)
  {
    if |a| == 0 {
      assert a + [Sep] + b == [Sep] + b;
      assert (a + [Sep] + b)[1..] == b;
    } else {
      SplitAfterPiece(a[1..], b);
      assert (a + [Sep] + b)[1..] == a[1..] + [Sep] + b;
      assert [a[0]] + a[1..] == a;
    }
  }

  /** Splitting undoes joining when no piece holds a separator. */
  lemma {:induction false} SplitUnsplit(pieces: seq<string>)
    requires |pieces| >= 1
    requires forall i :: 0 <= i < |pieces| ==> Sep !in pieces[i]
    ensures Split(Unsplit(pieces)) == pieces
  {
    if |pieces| == 1 {
      SplitNoSep(pieces[0]);
    } else {
      SplitUnsplit(pieces[1..]);
      SplitAfterPiece(pieces[0], Unsplit(pieces[1..]));
      assert [pieces[0]] + pieces[1..] == pieces;
    }
  }

  /** Reading one more character adds a piece exactly when that character is a separator. */
  lemma SplitCount(s: string)
    requires |s| > 0
    ensures |Split(s)| == |Split(s[1..])| + (if s[0] == Sep then 1 else 0)
  {
  }

  /** A separator splits the text around it: the pieces of each side, side by side. */
  lemma {:induction false} SplitAround(a: string, b: string)
    ensures |Split(a + [Sep] + b)| == |Split(a)| + |Split(b)|
    decreases |a|
  {
    var s := a + [Sep] + b;
    SplitCount(s);
    if |a| == 0 {
      assert s[1..] == b;
    } else {
      SplitAround(a[1..], b);
      SplitCount(a);
      assert s[1..] == a[1..] + [Sep] + b;
    }
  }

  /** Joining pieces that may themselves hold separators splits back into at least as many. */
  lemma {:induction false} SplitUnsplitAtLeast(pieces: seq<string>)
    requires |pieces| >= 1
    ensures |Split(Unsplit(pieces))| >= |pieces|
  {
    if |pieces| > 1 {
      SplitUnsplitAtLeast(pieces[1..]);
      SplitAround(pieces[0], Unsplit(pieces[1..]));
    }
  }

  /** Appending two pieces keeps a prefix. */
  lemma PrefixGrows(p: string, s: string, a: string, b: string)
    requires p <= s
    ensures p <= s + a + b
  {
  }

  /** `b` and `m` end the text `a + b + m`. */
  lemma EndsWithAppended(a: string, b: string, m: string)
    ensures EndsWith(a + b + m, b + m)
  {
    assert (a + b + m)[|a + b + m| - |b + m|..] == b + m;
  }

  /** Parsing a field undoes rendering it when its key holds no `=`. */
  lemma {:induction false} ParseFieldRender(f: Field)
    requires Eq !in f.key
    ensures ParseField(Render(f)) == Some(f)
    decreases |f.key|
  {
    var piece := Render(f);
    if |f.key| == 0 {
      assert piece == [Eq] + f.value;
      assert piece[1..] == f.value;
    } else {
      var g := Field(f.key[1..], f.value);
      ParseFieldRender(g);
      assert piece[0] == f.key[0] && piece[0] != Eq;
      assert piece[1..] == Render(g);
      assert [f.key[0]] + g.key == f.key;
    }
  }

  /** Parsing every piece undoes rendering every field. */
  lemma {:induction false} ParseAllRenderAll(fs: seq<Field>)
    requires forall i :: 0 <= i < |fs| ==> Eq !in fs[i].key
    ensures ParseAll(RenderAll(fs)) == Some(fs)
  {
    if |fs| > 0 {
      var pieces := RenderAll(fs);
      assert pieces[0] == Render(fs[0]);
      assert pieces[1..] == RenderAll(fs[1..]);
      ParseFieldRender(fs[0]);
      ParseAllRenderAll(fs[1..]);
      assert ParseAll(pieces) == Some([fs[0]] + fs[1..]);
      assert [fs[0]] + fs[1..] == fs;
    }
  }

  /** Round trip: the query string of separable fields parses back to exactly those fields. */
  lemma ParseJoin(fs: seq<Field>)
    requires |fs| >= 1
    requires Separable(fs)
    ensures ParseQuery(Join(fs)) == Some(fs)
  {
    var pieces := RenderAll(fs);
    forall i | 0 <= i < |pieces|
      ensures Sep !in pieces[i]
    {
      assert pieces[i] == fs[i].key + [Eq] + fs[i].value;
    }
    SplitUnsplit(pieces);
    ParseAllRenderAll(fs);
  }

  /** The text of a query string up to the field at index `i`. */
  function JoinBefore(fs: seq<Field>, i: nat): string
    requires i < |fs|
  {
    if i == 0 then "" else Join(fs[..i]) + [Sep]
  }

  /** The text of a query string after the field at index `i`. */
  function JoinAfter(fs: seq<Field>, i: nat): string
    requires i < |fs|
  {
    if i == |fs| - 1 then "" else [Sep] + Join(fs[i + 1..])
  }

  /** Appending a field to a non-empty list appends a separator and its text to the query string. */
  lemma {:induction false} JoinAppend(fs: seq<Field>, f: Field)
    requires |fs| >= 1
    ensures Join(fs + [f]) == Join(fs) + [Sep] + Render(f)
  {
    if |fs| == 1 {
      JoinCons(fs + [f]);
      assert (fs + [f])[1..] == [f];
    } else {
      JoinCons(fs + [f]);
      JoinCons(fs);
      assert (fs + [f])[1..] == fs[1..] + [f];
      JoinAppend(fs[1..], f);
    }
  }

  /** Extending a URL prefix by the next field: the separator, the key, `=`, the value. */
  lemma JoinStep(start: string, fs: seq<Field>, k: nat, u: string)
    requires 1 <= k < |fs|
    requires start + Join(fs[..k]) == u
    ensures start + Join(fs[..k + 1]) == u + ([Sep] + fs[k].key + [Eq]) + fs[k].value
  {
    JoinAppend(fs[..k], fs[k]);
    assert fs[..k] + [fs[k]] == fs[..k + 1];
  }

  /** The query string of two or more fields: the first, a separator, the rest. */
  lemma JoinCons(fs: seq<Field>)
    requires |fs| >= 2
    ensures Join(fs) == Render(fs[0]) + [Sep] + Join(fs[1..])
  {
    assert RenderAll(fs)[1..] == RenderAll(fs[1..]);
  }

  /** Concatenation regrouped: a head followed by three parts. */
  lemma Regroup(head: string, a: string, b: string, c: string)
    ensures head + (a + b + c) == (head + a) + b + c
  {
  }

  /** The text before field `i > 0` starts with the first field and a separator. */
  lemma JoinBeforeCons(fs: seq<Field>, i: nat)
    requires 1 <= i < |fs|
    ensures JoinBefore(fs, i) == Render(fs[0]) + [Sep] + JoinBefore(fs[1..], i - 1)
  {
    if i >= 2 {
      JoinCons(fs[..i]);
      assert fs[..i][1..] == fs[1..][..i - 1];
    } else {
      assert Join(fs[..i]) == Render(fs[0]);
    }
  }

  /** The text after field `i > 0` does not depend on the first field. */
  lemma JoinAfterCons(fs: seq<Field>, i: nat)
    requires 1 <= i < |fs|
    ensures JoinAfter(fs, i) == JoinAfter(fs[1..], i - 1)
  {
    assert fs[1..][i..] == fs[i + 1..];
  }

  /**
   The query string is the text before field `i`, field `i`, and the text
   after it; the text before depends only on the fields before `i` and the
   text after only on the fields after it.
   */
  lemma {:induction false} JoinAround(fs: seq<Field>, i: nat)
    requires i < |fs|
    ensures Join(fs) == JoinBefore(fs, i) + Render(fs[i]) + JoinAfter(fs, i)
  {
    if i == 0 {
      if |fs| >= 2 {
        JoinCons(fs);
      }
    } else {
      var tail := fs[1..];
      JoinCons(fs);
      JoinAround(tail, i - 1);
      JoinBeforeCons(fs, i);
      JoinAfterCons(fs, i);
      assert tail[i - 1] == fs[i];
      var head, jb, r, ja := Render(fs[0]) + [Sep], JoinBefore(tail, i - 1), Render(fs[i]), JoinAfter(tail, i - 1);
      Regroup(head, jb, r, ja);
    }
  }

  /** A field's text occurs in any text that holds it. */
  lemma ContainsField(a: string, key: string, value: string, b: string)
    ensures Contains(a + key + [Eq] + value + b, key + [Eq] + value)
  {
    ContainsInfix(a, key + [Eq] + value, b);
    assert a + key + [Eq] + value + b == a + (key + [Eq] + value) + b;
  }

  /** Regrouping a URL around one field's value. */
  lemma RegroupField(start: string, before: string, key: string, value: string, after: string)
    ensures start + (before + (key + [Eq] + value) + after) == (start + before + key + [Eq]) + value + after
  {
  }

  /** Moving text that follows a marker from the end of one value to the front of the next. */
  lemma ShiftAcross(x: string, a: string, marker: string, b: string, c: string)
    ensures x + (a + marker + b) + marker + c == x + a + marker + (b + marker + c)
  {
  }

  /** Whatever surrounds `t` still contains it. */
  lemma {:induction false} ContainsInfix(a: string, t: string, b: string)
    ensures Contains(a + t + b, t)
  {
    if |a| == 0 {
      assert a + t + b == t + b;
    } else {
      ContainsInfix(a[1..], t, b);
      assert (a + t + b)[1..] == a[1..] + t + b;
    }
  }
}
