/**
 * `getValue(data, separator, index)`: the index-th separator-delimited field
 * of a command line, or the empty string when there are not that many.
 *
 * `GetValue` follows the firmware's scanning loop step for step (`Scan`); its
 * contract states the result against an independent reference, `Fields`,
 * built from an ordinary left-to-right split.
 */
module Fields {

  /** The pieces of `s` between separators; one more piece than there are separators. */
  function Split(s: string, sep: char): (parts: seq<string>)
    ensures |parts| >= 1
    decreases |s|
  {
    if |s| == 0 then [""]
    else
      var ps := Split(s[..|s| - 1], sep);
      var c := s[|s| - 1];
      if c == sep then ps + [""] else ps[..|ps| - 1] + [ps[|ps| - 1] + [c]]
  }

  /** The pieces put back together with one separator between neighbours. */
  function Join(fs: seq<string>, sep: char): string
    requires |fs| >= 1
    decreases |fs|
  {
    if |fs| == 1 then fs[0] else Join(fs[..|fs| - 1], sep) + [sep] + fs[|fs| - 1]
  }

  /**
   * The fields the firmware's loop delimits: the text before the last character
   * is split on every separator, and the last character always closes the
   * final field, even when it is itself a separator. Empty text has no fields.
   */
  function Fields(data: string, sep: char): seq<string> {
    if |data| == 0 then []
    else
      var ps := Split(data[..|data| - 1], sep);
      ps[..|ps| - 1] + [ps[|ps| - 1] + [data[|data| - 1]]]
  }

  /** The loop's variables: fields found so far, and the bounds of the last one found. */
  datatype Cursor = Cursor(found: nat, start: int, end: int)

  /** The firmware's `for` loop from position `i`: it stops at the end of the text or once field `index` is found. */
  function Scan(data: string, sep: char, index: nat, i: nat, c: Cursor): Cursor
    decreases |data| - i
  {
    if i <= |data| - 1 && c.found <= index then Scan(data, sep, index, i + 1, Visit(data, sep, i, c)) else c
  }

  /** One iteration of the loop: a separator or the last character closes a field. */
  function Visit(data: string, sep: char, i: nat, c: Cursor): Cursor
    requires i < |data|
  {
    var last := i == |data| - 1;
    if data[i] == sep || last then Cursor(c.found + 1, c.end + 1, if last then i + 1 else i) else c
  }

  /** What the loop keeps true before position `i`, for non-empty text. */
  ghost predicate ScanInv(data: string, sep: char, index: nat, i: nat, c: Cursor) {
    && 1 <= |data| && i <= |data| && c.found <= index + 1
    && (i < |data| ==>
          var ps := Split(data[..i], sep);
          && c.found + 1 == |ps|
          && -1 <= c.end < i
          && ps[c.found] == data[c.end + 1..i]
          && (c.found >= 1 ==> 0 <= c.start <= c.end && ps[c.found - 1] == data[c.start..c.end]))
    && (i == |data| ==>
          var fs := Fields(data, sep);
          && c.found == |fs| && c.found >= 1
          && 0 <= c.start <= c.end == |data|
          && fs[c.found - 1] == data[c.start..c.end])
  }

  /** What the loop's exit delivers: field `index` delimited by the cursor, or the knowledge that there is none. */
  ghost predicate ScanPost(data: string, sep: char, index: nat, c: Cursor) {
    var fs := Fields(data, sep);
    && (c.found > index ==> 0 <= c.start <= c.end <= |data| && index < |fs| && fs[index] == data[c.start..c.end])
    && (c.found <= index ==> |fs| <= index)
  }

  /** Splitting text that ends in `c`: a separator opens a new piece, any other character extends the last one. */
  lemma SplitSnoc(x: string, c: char, sep: char)
    ensures var ps := Split(x, sep);
            Split(x + [c], sep) == if c == sep then ps + [""] else ps[..|ps| - 1] + [ps[|ps| - 1] + [c]]
  {
    assert (x + [c])[..|x|] == x;
  }

  /** Growing the text never changes the pieces already closed by a separator. */
  lemma {:induction false} SplitExtend(p: string, q: string, sep: char)
    ensures |Split(p + q, sep)| >= |Split(p, sep)|
    ensures forall j :: 0 <= j < |Split(p, sep)| - 1 ==> Split(p + q, sep)[j] == Split(p, sep)[j]
    decreases |q|
  {
    if |q| > 0 {
      var q' := q[..|q| - 1];
      SplitExtend(p, q', sep);
      assert p + q == (p + q') + [q[|q| - 1]];
      SplitSnoc(p + q', q[|q| - 1], sep);
    } else {
      assert p + q == p;
    }
  }

  /** Closed pieces of a prefix of the text before the last character are fields of the whole text. */
  lemma PrefixFieldsAreFields(data: string, sep: char, i: nat)
    requires 1 <= |data| && i < |data|
    ensures var ps := Split(data[..i], sep);
            |ps| <= |Fields(data, sep)| &&
            forall j :: 0 <= j < |ps| - 1 ==> Fields(data, sep)[j] == ps[j]
  {
    var n := |data|;
    assert data[..n - 1] == data[..i] + data[i..n - 1];
    SplitExtend(data[..i], data[i..n - 1], sep);
    var ps := Split(data[..i], sep);
    var ps0 := Split(data[..n - 1], sep);
    var fs := Fields(data, sep);
    assert fs == ps0[..|ps0| - 1] + [ps0[|ps0| - 1] + [data[n - 1]]];
    forall j | 0 <= j < |ps| - 1
      ensures fs[j] == ps[j]
    {
      assert fs[j] == ps0[j];
    }
  }

  /** No piece contains the separator. */
  lemma {:induction false} SplitPiecesPlain(s: string, sep: char)
    ensures forall k :: 0 <= k < |Split(s, sep)| ==> sep !in Split(s, sep)[k]
    decreases |s|
  {
    if |s| > 0 {
      var x, c := s[..|s| - 1], s[|s| - 1];
      SplitPiecesPlain(x, sep);
      var ps := Split(x, sep);
      var qs := Split(s, sep);
      var l := ps[|ps| - 1];
      assert qs == if c == sep then ps + [""] else ps[..|ps| - 1] + [l + [c]];
      forall k | 0 <= k < |qs| ensures sep !in qs[k] {
        if k < |ps| - 1 || (k == |ps| - 1 && c == sep) {
          assert qs[k] == ps[k];
        } else if c == sep {
          assert qs[k] == "";
        } else {
          assert qs[k] == l + [c];
          assert sep !in l;
          assert sep !in [c];
        }
      }
    }
  }

  /** A separator read at position `i` closes the current piece and opens an empty one. */
  lemma SplitAtSep(data: string, sep: char, i: nat)
    requires i < |data| && data[i] == sep
    ensures Split(data[..i + 1], sep) == Split(data[..i], sep) + [""]
  {
    assert data[..i + 1] == data[..i] + [data[i]];
    SplitSnoc(data[..i], data[i], sep);
  }

  /** Any other character read at position `i` extends the current piece. */
  lemma SplitAtPlain(data: string, sep: char, i: nat)
    requires i < |data| && data[i] != sep
    ensures var ps := Split(data[..i], sep);
            Split(data[..i + 1], sep) == ps[..|ps| - 1] + [ps[|ps| - 1] + [data[i]]]
  {
    assert data[..i + 1] == data[..i] + [data[i]];
    SplitSnoc(data[..i], data[i], sep);
  }

  /** The scan keeps its invariant across a separator before the last character. */
  lemma ScanSepStep(data: string, sep: char, index: nat, i: nat, c: Cursor)
    requires ScanInv(data, sep, index, i, c) && i < |data| - 1 && c.found <= index && data[i] == sep
    ensures ScanInv(data, sep, index, i + 1, Cursor(c.found + 1, c.end + 1, i))
  {
    var ps := Split(data[..i], sep);
    SplitAtSep(data, sep, i);
    var ps' := ps + [""];
    assert ps'[c.found + 1] == "" == data[i + 1..i + 1];
    assert ps'[c.found] == ps[c.found];
  }

  /** The scan keeps its invariant across any other character before the last one. */
  lemma ScanPlainStep(data: string, sep: char, index: nat, i: nat, c: Cursor)
    requires ScanInv(data, sep, index, i, c) && i < |data| - 1 && c.found <= index && data[i] != sep
    ensures ScanInv(data, sep, index, i + 1, c)
  {
    var ps := Split(data[..i], sep);
    SplitAtPlain(data, sep, i);
    var ps' := ps[..|ps| - 1] + [ps[|ps| - 1] + [data[i]]];
    assert data[c.end + 1..i + 1] == data[c.end + 1..i] + [data[i]];
    assert ps'[c.found] == data[c.end + 1..i + 1];
    if c.found >= 1 {
      assert ps'[c.found - 1] == ps[c.found - 1];
    }
  }

  lemma ScanStep(data: string, sep: char, index: nat, i: nat, c: Cursor)
    requires ScanInv(data, sep, index, i, c) && i < |data| && c.found <= index
    ensures ScanInv(data, sep, index, i + 1, Visit(data, sep, i, c))
  {
    if i == |data| - 1 {
      FinalStep(data, sep, c);
    } else if data[i] == sep {
      ScanSepStep(data, sep, index, i, c);
    } else {
      ScanPlainStep(data, sep, index, i, c);
    }
  }

  /** Visiting the last character closes the final field, which runs to the end of the text. */
  lemma FinalStep(data: string, sep: char, c: Cursor)
    requires 1 <= |data|
    requires var ps := Split(data[..|data| - 1], sep);
             && c.found + 1 == |ps|
             && -1 <= c.end < |data| - 1
             && ps[c.found] == data[c.end + 1..|data| - 1]
    ensures var fs := Fields(data, sep);
            && c.found + 1 == |fs|
            && fs[c.found] == data[c.end + 1..|data|]
  {
    var n := |data|;
    FieldsLast(data, sep);
    assert data[c.end + 1..n] == data[c.end + 1..n - 1] + [data[n - 1]];
  }

  /** The last field of a non-empty text is the last piece before its final character, extended by that character. */
  lemma FieldsLast(data: string, sep: char)
    requires 1 <= |data|
    ensures var ps := Split(data[..|data| - 1], sep);
            var fs := Fields(data, sep);
            && |fs| == |ps|
            && fs[|fs| - 1] == ps[|ps| - 1] + [data[|data| - 1]]
  {
  }

  /** The loop leaves early once field `index` is found: the cursor then delimits that field. */
  lemma ScanFoundEarly(data: string, sep: char, index: nat, i: nat, c: Cursor)
    requires ScanInv(data, sep, index, i, c) && i < |data| && c.found > index
    ensures ScanPost(data, sep, index, c)
  {
    PrefixFieldsAreFields(data, sep, i);
  }

  lemma {:induction false} ScanSpec(data: string, sep: char, index: nat, i: nat, c: Cursor)
    requires ScanInv(data, sep, index, i, c)
    ensures ScanPost(data, sep, index, Scan(data, sep, index, i, c))
    decreases |data| - i
  {
    if i <= |data| - 1 && c.found <= index {
      ScanStep(data, sep, index, i, c);
      ScanSpec(data, sep, index, i + 1, Visit(data, sep, i, c));
    } else if i < |data| {
      ScanFoundEarly(data, sep, index, i, c);
    }
  }

  /**
   * The firmware's `getValue`: field `index` of `data` as the loop delimits it,
   * or "" when the text has no such field (in particular when it is empty).
   */
  function GetValue(data: string, sep: char, index: nat): (r: string)
    ensures var fs := Fields(data, sep);
            r == if index < |fs| then fs[index] else ""
  {
    var c := Scan(data, sep, index, 0, Cursor(0, 0, -1));
    if |data| == 0 then
      ""
    else
      ScanSpec(data, sep, index, 0, Cursor(0, 0, -1));
      if c.found > index then data[c.start..c.end] else ""
  }

  // ---------------------------------------------------------------------------
  // Round trip through Join

  /** The pieces with `w` appended to the last one. */
  function Extend(ps: seq<string>, w: string): seq<string>
    requires |ps| >= 1
  {
    ps[..|ps| - 1] + [ps[|ps| - 1] + w]
  }

  /** Appending separator-free text extends the last piece only. */
  lemma {:induction false} SplitAppendPlain(x: string, w: string, sep: char)
    requires sep !in w
    ensures Split(x + w, sep) == Extend(Split(x, sep), w)
    decreases |w|
  {
    if |w| > 0 {
      var w', ch := w[..|w| - 1], w[|w| - 1];
      LastOfPlain(w, sep);
      SplitAppendPlain(x, w', sep);
      AppendPlainSnoc(x, w', ch, sep);
    } else {
      assert x + w == x;
      assert Split(x, sep)[|Split(x, sep)| - 1] + w == Split(x, sep)[|Split(x, sep)| - 1];
    }
  }

  /** Separator-free text is its separator-free front followed by a last character that is not the separator. */
  lemma LastOfPlain(w: string, sep: char)
    requires |w| > 0 && sep !in w
    ensures w == w[..|w| - 1] + [w[|w| - 1]]
    ensures sep !in w[..|w| - 1] && w[|w| - 1] != sep
  {
    assert forall k :: 0 <= k < |w| - 1 ==> w[..|w| - 1][k] == w[k];
  }

  /** One more plain character after plain text `w` still only extends the last piece. */
  lemma AppendPlainSnoc(x: string, w: string, ch: char, sep: char)
    requires ch != sep
    requires Split(x + w, sep) == Extend(Split(x, sep), w)
    ensures Split(x + (w + [ch]), sep) == Extend(Split(x, sep), w + [ch])
  {
    var ps := Split(x, sep);
    var y := x + w;
    var qs := Split(y, sep);
    assert Split(y + [ch], sep) == Extend(qs, [ch]) by {
      SplitSnoc(y, ch, sep);
    }
    assert Extend(qs, [ch]) == Extend(ps, w + [ch]) by {
      assert qs == Extend(ps, w);
      ExtendLast(ps, w, ch);
    }
    assert x + (w + [ch]) == y + [ch];
  }

  /** Extending the last piece by `w` and then by `ch` is extending it by `w + [ch]`. */
  lemma ExtendLast(ps: seq<string>, w: string, ch: char)
    requires |ps| >= 1
    ensures Extend(Extend(ps, w), [ch]) == Extend(ps, w + [ch])
  {
    var qs := Extend(ps, w);
    assert qs[..|qs| - 1] == ps[..|ps| - 1];
    assert (ps[|ps| - 1] + w) + [ch] == ps[|ps| - 1] + (w + [ch]);
  }

  /** Splitting undoes joining, for pieces free of the separator. */
  lemma {:induction false} SplitJoin(fs: seq<string>, sep: char)
    requires |fs| >= 1 && forall k :: 0 <= k < |fs| ==> sep !in fs[k]
    ensures Split(Join(fs, sep), sep) == fs
    decreases |fs|
  {
    if |fs| == 1 {
      SplitAppendPlain([], fs[0], sep);
      assert [] + fs[0] == fs[0];
    } else {
      var init, last := fs[..|fs| - 1], fs[|fs| - 1];
      assert fs == init + [last];
      SplitJoin(init, sep);
      SplitJoinSnoc(init, last, sep);
    }
  }

  /** One more separator-free piece joined on is one more piece split off. */
  lemma SplitJoinSnoc(init: seq<string>, last: string, sep: char)
    requires |init| >= 1 && sep !in last
    requires Split(Join(init, sep), sep) == init
    ensures Split(Join(init + [last], sep), sep) == init + [last]
  {
    var fs := init + [last];
    assert fs[..|fs| - 1] == init;
    var x := Join(init, sep) + [sep];
    assert Join(fs, sep) == x + last;
    SplitSnoc(Join(init, sep), sep, sep);
    SplitAppendPlain(x, last, sep);
    assert "" + last == last;
  }

  /** Joining pieces whose last one ends in `c` is joining with `c` removed, then appending `c`. */
  lemma {:induction false} JoinLastChar(fs: seq<string>, sep: char)
    requires |fs| >= 1 && |fs[|fs| - 1]| >= 1
    ensures var m := |fs|;
            var l := fs[m - 1];
            Join(fs, sep) == Join(fs[..m - 1] + [l[..|l| - 1]], sep) + [l[|l| - 1]]
  {
    var m := |fs|;
    var l := fs[m - 1];
    var fs' := fs[..m - 1] + [l[..|l| - 1]];
    assert fs'[..m - 1] == fs[..m - 1];
    assert l == l[..|l| - 1] + [l[|l| - 1]];
  }

  /** Removing the last character of the last piece keeps every piece free of the separator. */
  lemma DropLastCharPlain(fs: seq<string>, sep: char)
    requires |fs| >= 1 && forall k :: 0 <= k < |fs| ==> sep !in fs[k]
    requires |fs[|fs| - 1]| >= 1
    ensures var l := fs[|fs| - 1];
            var fs' := fs[..|fs| - 1] + [l[..|l| - 1]];
            forall k :: 0 <= k < |fs'| ==> sep !in fs'[k]
  {
    var l := fs[|fs| - 1];
    assert forall x :: x in l[..|l| - 1] ==> x in l;
  }

  /** The fields of text ending in `c` are its pieces before `c`, with `c` closing the last one. */
  lemma FieldsSnoc(x: string, c: char, sep: char)
    ensures var ps := Split(x, sep);
            Fields(x + [c], sep) == ps[..|ps| - 1] + [ps[|ps| - 1] + [c]]
  {
    assert (x + [c])[..|x|] == x;
  }

  /** The loop's fields of joined text are the pieces, provided the last piece is not empty. */
  lemma FieldsJoin(fs: seq<string>, sep: char)
    requires |fs| >= 1 && forall k :: 0 <= k < |fs| ==> sep !in fs[k]
    requires |fs[|fs| - 1]| >= 1
    ensures Fields(Join(fs, sep), sep) == fs
  {
    var m := |fs|;
    var l := fs[m - 1];
    var fs' := fs[..m - 1] + [l[..|l| - 1]];
    JoinLastChar(fs, sep);
    DropLastCharPlain(fs, sep);
    SplitJoin(fs', sep);
    FieldsSnoc(Join(fs', sep), l[|l| - 1], sep);
    RestoreLastChar(fs);
  }

  /** Putting the last character back on the last piece gives the pieces again. */
  lemma RestoreLastChar(fs: seq<string>)
    requires |fs| >= 1 && |fs[|fs| - 1]| >= 1
    ensures var m := |fs|;
            var l := fs[m - 1];
            var fs' := fs[..m - 1] + [l[..|l| - 1]];
            fs'[..m - 1] + [fs'[m - 1] + [l[|l| - 1]]] == fs
  {
    var m := |fs|;
    var l := fs[m - 1];
    assert l[..|l| - 1] + [l[|l| - 1]] == l;
  }

  /**
   * `getValue` recovers field `k` of text joined from separator-free fields
   * whose last field is not empty, and yields "" past the last field.
   */
  lemma GetValueJoin(fs: seq<string>, sep: char, k: nat)
    requires |fs| >= 1 && forall j :: 0 <= j < |fs| ==> sep !in fs[j]
    requires |fs[|fs| - 1]| >= 1
    ensures GetValue(Join(fs, sep), sep, k) == if k < |fs| then fs[k] else ""
  {
    FieldsJoin(fs, sep);
  }

  /** Empty text has no fields at all. */
  lemma GetValueEmpty(sep: char, k: nat)
    ensures GetValue("", sep, k) == ""
  {
  }

  /** A trailing separator is kept as part of the last field: field 0 of "a " split on spaces is "a ". */
  lemma TrailingSeparatorKept()
    ensures GetValue("a ", ' ', 0) == "a "
    ensures GetValue("a ", ' ', 1) == ""
  {
    SplitSnoc("", 'a', ' ');
    assert "" + ['a'] == "a";
    assert "a "[..1] == "a";
  }
}
