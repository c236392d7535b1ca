/** Which fields the frontend finds in a block, for any body. */
module ReaderFields {
  import opened Strings
  import opened Reader

  predicate LineStart(s: string, p: nat) {
    p == 0 || (p <= |s| && s[p - 1] == '\n')
  }

  /** From place `i` on: white space, even across lines, and then the rest of a line, trimmed. */
  ghost predicate LineAfter(s: string, i: nat, j: nat, e: nat) {
    && i <= j < e <= |s|
    && (forall k :: i <= k < j ==> IsSpace(s[k]))
    && !IsSpace(s[j])
    && (forall k :: j <= k < e ==> s[k] != '\n')
    && (e == |s| || s[e] == '\n')
  }

  /** The value of a label that ends at place `i`: that line; or empty, if only white space follows and not
      all of it is line breaks. */
  ghost predicate ValueAt(s: string, i: nat, v: string) {
    || (exists j: nat, e: nat :: LineAfter(s, i, j, e) && v == Trim(s[j..e]))
    || (v == "" && OnlySpaceAfter(s, i) && !OnlyBreaksAfter(s, i))
  }

  ghost predicate OnlySpaceAfter(s: string, i: nat) {
    forall k :: i <= k < |s| ==> IsSpace(s[k])
  }

  ghost predicate OnlyBreaksAfter(s: string, i: nat) {
    forall k :: i <= k < |s| ==> s[k] == '\n'
  }

  lemma BlanksAre(s: string, i: nat, r: string, w: nat)
    requires i <= |s| && r == s[i..] && w == SpaceRun(r) < |r|
    ensures (forall k :: i <= k < i + w ==> IsSpace(s[k])) && !IsSpace(s[i + w])
    ensures r[w..] == s[i + w..]
  {
    assert forall k :: 0 <= k < |r| ==> r[k] == s[i + k];
    assert forall k :: i <= k < i + w ==> s[k] == r[k - i];
  }

  lemma LineEnds(s: string, j: nat, t: string, n: nat)
    requires j <= |s| && t == s[j..] && n == LineLength(t)
    ensures (forall k :: j <= k < j + n ==> s[k] != '\n') && (j + n == |s| || s[j + n] == '\n')
    ensures t[..n] == s[j..j + n]
  {
    assert forall k :: j <= k < |s| ==> s[k] == t[k - j];
  }

  lemma ValueIsAt(s: string, i: nat, j: nat, e: nat, line: string)
    requires LineAfter(s, i, j, e) && line == s[j..e]
    ensures ValueAt(s, i, Trim(line))
  {
  }

  lemma FirstOfLine(s: string, j: nat, t: string, n: nat)
    requires j < |s| && t == s[j..] && n == LineLength(t) && !IsSpace(s[j])
    ensures n > 0
  {
    assert t[0] == s[j];
  }

  lemma LineIs(s: string, i: nat, j: nat, e: nat, t: string)
    requires i <= j < |s| && (forall k :: i <= k < j ==> IsSpace(s[k])) && !IsSpace(s[j])
    requires t == s[j..] && e == j + LineLength(t)
    ensures LineAfter(s, i, j, e) && t[..LineLength(t)] == s[j..e]
  {
    LineEnds(s, j, t, LineLength(t));
    FirstOfLine(s, j, t, LineLength(t));
  }

  lemma LineFound(s: string, i: nat, r: string, j: nat, e: nat, t: string)
    requires i <= |s| && r == s[i..] && SpaceRun(r) < |r| && t == r[SpaceRun(r)..]
    requires j == i + SpaceRun(r) && e == j + LineLength(t)
    ensures ValueAt(s, i, Trim(t[..LineLength(t)]))
  {
    BlanksAre(s, i, r, SpaceRun(r));
    LineIs(s, i, j, e, t);
    ValueIsAt(s, i, j, e, t[..LineLength(t)]);
  }

  lemma FieldValueIs(s: string, i: nat, r: string)
    requires i <= |s| && r == s[i..]
    ensures FieldValue(r).Some? ==> ValueAt(s, i, FieldValue(r).value)
    ensures FieldValue(r).None? ==> OnlyBreaksAfter(s, i)
  {
    assert forall k :: 0 <= k < |r| ==> r[k] == s[i + k];
    if SpaceRun(r) < |r| {
      var t := r[SpaceRun(r)..];
      LineFound(s, i, r, i + SpaceRun(r), i + SpaceRun(r) + LineLength(t), t);
    } else {
      assert forall k :: i <= k < |s| ==> s[k] == r[k - i];
    }
  }

  lemma LineHasText(s: string, i: nat, j: nat, e: nat)
    ensures LineAfter(s, i, j, e) ==> !OnlyBreaksAfter(s, i) && !OnlySpaceAfter(s, i)
  {
  }

  /** Nothing follows that could be a value. */
  lemma NoValue(s: string, i: nat, v: string)
    requires OnlyBreaksAfter(s, i)
    ensures !ValueAt(s, i, v)
  {
    forall j: nat, e: nat
      ensures !LineAfter(s, i, j, e)
    {
      LineHasText(s, i, j, e);
    }
  }

  lemma LineOnce(s: string, i: nat, j: nat, e: nat, k: nat, f: nat)
    requires LineAfter(s, i, j, e) && LineAfter(s, i, k, f)
    ensures j == k && e == f
  {
  }

  lemma ValueOnce(s: string, i: nat, v: string, w: string)
    requires ValueAt(s, i, v) && ValueAt(s, i, w)
    ensures v == w
  {
    forall j: nat, e: nat
      ensures LineAfter(s, i, j, e) ==> !OnlySpaceAfter(s, i)
    {
      LineHasText(s, i, j, e);
    }
    if j: nat, e: nat :| LineAfter(s, i, j, e) && v == Trim(s[j..e]) {
      var k: nat, f: nat :| LineAfter(s, i, k, f) && w == Trim(s[k..f]);
      LineOnce(s, i, j, e, k, f);
    }
  }

  /** Place `p` starts a line with the label, and a value follows. */
  ghost predicate FieldAt(s: string, tag: string, p: nat, v: string) {
    LineStart(s, p) && At(s, tag, p) && ValueAt(s, p + |tag|, v)
  }

  ghost predicate NoFieldBefore(s: string, tag: string, n: nat) {
    forall p: nat, v :: p < n ==> !FieldAt(s, tag, p, v)
  }

  lemma LabelHere(s: string, tag: string, n: nat, rest: string)
    requires n <= |s| && rest == s[n..]
    ensures At(s, tag, n) <==> tag <= rest
    ensures tag <= rest ==> n + |tag| <= |s| && rest[|tag|..] == s[n + |tag|..]
  {
    if n + |tag| <= |s| {
      assert s[n..n + |tag|] == rest[..|tag|];
    }
  }

  lemma NotHere(s: string, tag: string, n: nat)
    requires NoFieldBefore(s, tag, n) && forall v :: !FieldAt(s, tag, n, v)
    ensures NoFieldBefore(s, tag, n + 1)
  {
  }

  lemma HereOrLater(s: string, tag: string, n: nat, rest: string)
    requires n <= |s| && rest == s[n..] && NoFieldBefore(s, tag, n)
    ensures var here := LineStart(s, n) && tag <= rest && FieldValue(rest[|tag|..]).Some?;
            if here then FieldAt(s, tag, n, FieldValue(rest[|tag|..]).value) else NoFieldBefore(s, tag, n + 1)
  {
    LabelHere(s, tag, n, rest);
    if LineStart(s, n) && tag <= rest {
      FieldValueIs(s, n + |tag|, rest[|tag|..]);
      if FieldValue(rest[|tag|..]).None? {
        forall v
          ensures !FieldAt(s, tag, n, v)
        {
          NoValue(s, n + |tag|, v);
        }
        NotHere(s, tag, n);
      }
    } else {
      NotHere(s, tag, n);
    }
  }

  lemma {:induction false} ReadFrom(s: string, tag: string, n: nat, rest: string)
    requires n <= |s| && rest == s[n..] && NoFieldBefore(s, tag, n)
    ensures match ReadField(rest, tag, LineStart(s, n))
            case Some(v) => exists p: nat :: FieldAt(s, tag, p, v) && NoFieldBefore(s, tag, p)
            case None => NoFieldBefore(s, tag, |s| + 1)
    decreases |rest|
  {
    HereOrLater(s, tag, n, rest);
    if LineStart(s, n) && tag <= rest && FieldValue(rest[|tag|..]).Some? {
      assert FieldAt(s, tag, n, FieldValue(rest[|tag|..]).value);
    } else if rest != "" {
      assert rest[1..] == s[n + 1..] && rest[0] == s[n];
      ReadFrom(s, tag, n + 1, rest[1..]);
    }
  }

  /** A field is read from the first line that starts with its label and has a value after it; it is missing
      exactly if there is no such line. */
  lemma ReadFieldIs(s: string, tag: string)
    ensures match ReadField(s, tag, true)
            case Some(v) => exists p: nat :: FieldAt(s, tag, p, v) && NoFieldBefore(s, tag, p)
            case None => forall p: nat, v :: !FieldAt(s, tag, p, v)
  {
    assert s[0..] == s;
    ReadFrom(s, tag, 0, s);
    if ReadField(s, tag, true).None? {
      forall p: nat, v
        ensures !FieldAt(s, tag, p, v)
      {
      }
    }
  }

  /** A block is shown exactly if it has an id and a description, and with these. */
  lemma ReadBlockIs(body: string)
    ensures ReadBlock(body).Some? <==>
            (exists p: nat, v :: FieldAt(body, "id:", p, v)) && (exists p: nat, v :: FieldAt(body, "description:", p, v))
    ensures ReadBlock(body).Some? ==>
              var b := ReadBlock(body).value;
              && (exists p: nat :: FieldAt(body, "id:", p, b.id) && NoFieldBefore(body, "id:", p))
              && (exists p: nat :: FieldAt(body, "description:", p, b.description) && NoFieldBefore(body, "description:", p))
  {
    ReadFieldIs(body, "id:");
    ReadFieldIs(body, "description:");
  }
}
