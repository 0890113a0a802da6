/** The shape that both upstream tables of internal/config/config.go share: entries separated by ';',
    blank ones skipped, the first bad or overlapping one failing the whole table. */
module EntryTable {
  import opened Basics
  import opened Text
  import opened Roles

  /** What one piece between separators contributes: nothing if it is blank, its ports or its host
      otherwise; None if it is malformed. */
  function Contribution<K, V>(parse: string -> Option<map<K, V>>, piece: string): Option<map<K, V>> {
    if Trim(piece) == "" then Some(map[]) else parse(Trim(piece))
  }

  function Fold<K, V>(parse: string -> Option<map<K, V>>, pieces: seq<string>, m: map<K, V>): Option<map<K, V>>
    decreases |pieces|
  {
    if pieces == [] then Some(m)
    else
      match Contribution(parse, pieces[0])
      case None => None
      case Some(c) => if c.Keys !! m.Keys then Fold(parse, pieces[1..], m + c) else None
  }

  function NonEmptyTable<K, V>(t: Option<map<K, V>>): Option<map<K, V>> {
    match t
    case None => None
    case Some(m) => if |m| == 0 then None else t
  }

  function ParseTable<K, V>(parse: string -> Option<map<K, V>>, raw: string): Option<map<K, V>> {
    NonEmptyTable(Fold(parse, Split(raw, ';'), map[]))
  }

  // When a table parses, and to what

  ghost predicate AllParse<K, V>(parse: string -> Option<map<K, V>>, pieces: seq<string>) {
    forall i :: 0 <= i < |pieces| ==> Contribution(parse, pieces[i]).Some?
  }

  function Part<K, V>(parse: string -> Option<map<K, V>>, pieces: seq<string>, i: nat): map<K, V>
    requires i < |pieces|
  {
    var c := Contribution(parse, pieces[i]);
    if c.Some? then c.value else map[]
  }

  ghost predicate Disjoint<K, V>(parse: string -> Option<map<K, V>>, pieces: seq<string>, m: map<K, V>) {
    && (forall i :: 0 <= i < |pieces| ==> Part(parse, pieces, i).Keys !! m.Keys)
    && (forall i, j :: 0 <= i < j < |pieces| ==> Part(parse, pieces, i).Keys !! Part(parse, pieces, j).Keys)
  }

  function SizeSum<K, V>(parse: string -> Option<map<K, V>>, pieces: seq<string>): nat {
    if pieces == [] then 0
    else |Part(parse, pieces, 0)| + SizeSum(parse, pieces[1..])
  }

  lemma PartTail<K, V>(parse: string -> Option<map<K, V>>, pieces: seq<string>)
    requires pieces != []
    ensures forall i :: 0 <= i < |pieces| - 1 ==> Part(parse, pieces[1..], i) == Part(parse, pieces, i + 1)
  {
  }

  /** The fold succeeds exactly when every piece parses and no two of them, nor one and what is there
      already, share a key. */
  lemma {:induction false} FoldSucceedsIff<K, V>(parse: string -> Option<map<K, V>>, pieces: seq<string>, m: map<K, V>)
    ensures Fold(parse, pieces, m).Some? <==> AllParse(parse, pieces) && Disjoint(parse, pieces, m)
    decreases |pieces|
  {
    if pieces != [] {
      PartTail(parse, pieces);
      var c, rest := Contribution(parse, pieces[0]), pieces[1..];
      if c.Some? && c.value.Keys !! m.Keys {
        FoldSucceedsIff(parse, rest, m + c.value);
        assert Part(parse, pieces, 0) == c.value;
        if AllParse(parse, rest) && Disjoint(parse, rest, m + c.value) {
          JoinFirst(parse, pieces, m, c.value);
        }
        if AllParse(parse, pieces) && Disjoint(parse, pieces, m) {
          SplitFirstPart(parse, pieces, m, c.value);
        }
      } else if c.Some? {
        assert Part(parse, pieces, 0) == c.value;
      }
    }
  }

  lemma JoinFirst<K, V>(parse: string -> Option<map<K, V>>, pieces: seq<string>, m: map<K, V>, c: map<K, V>)
    requires pieces != [] && Contribution(parse, pieces[0]) == Some(c) && c.Keys !! m.Keys
    requires AllParse(parse, pieces[1..]) && Disjoint(parse, pieces[1..], m + c)
    ensures AllParse(parse, pieces) && Disjoint(parse, pieces, m)
  {
    hide Contribution;
    assert forall i :: 0 < i < |pieces| ==> pieces[i] == pieces[1..][i - 1];
    forall i | 0 < i < |pieces|
      ensures Part(parse, pieces, i).Keys !! m.Keys && c.Keys !! Part(parse, pieces, i).Keys
    {
      assert Part(parse, pieces[1..], i - 1) == Part(parse, pieces, i);
    }
    forall i, j | 0 < i < j < |pieces|
      ensures Part(parse, pieces, i).Keys !! Part(parse, pieces, j).Keys
    {
      assert Part(parse, pieces[1..], i - 1) == Part(parse, pieces, i);
      assert Part(parse, pieces[1..], j - 1) == Part(parse, pieces, j);
    }
  }

  lemma SplitFirstPart<K, V>(parse: string -> Option<map<K, V>>, pieces: seq<string>, m: map<K, V>, c: map<K, V>)
    requires pieces != [] && Contribution(parse, pieces[0]) == Some(c)
    requires AllParse(parse, pieces) && Disjoint(parse, pieces, m)
    ensures AllParse(parse, pieces[1..]) && Disjoint(parse, pieces[1..], m + c)
  {
    hide Contribution;
    PartTail(parse, pieces);
    assert Part(parse, pieces, 0) == c;
  }

  /** What a successful fold returns, key by key: what was there already and the parts, unchanged, and
      nothing else. */
  lemma {:induction false} FoldKey<K, V>(
    parse: string -> Option<map<K, V>>, pieces: seq<string>, m: map<K, V>, t: map<K, V>, k: K)
    requires Fold(parse, pieces, m) == Some(t)
    ensures k in m ==> k in t && t[k] == m[k]
    ensures forall i :: 0 <= i < |pieces| && k in Part(parse, pieces, i) ==> k in t && t[k] == Part(parse, pieces, i)[k]
    ensures k in t ==> k in m || exists i :: 0 <= i < |pieces| && k in Part(parse, pieces, i)
    decreases |pieces|
  {
    if pieces != [] {
      var c, rest := Contribution(parse, pieces[0]).value, pieces[1..];
      PartTail(parse, pieces);
      assert Part(parse, pieces, 0) == c;
      FoldKey(parse, rest, m + c, t, k);
      hide *;
      if k in t && k !in m && k !in c {
        var i :| 0 <= i < |rest| && k in Part(parse, rest, i);
        assert k in Part(parse, pieces, i + 1);
      }
      forall i | 0 <= i < |pieces| && k in Part(parse, pieces, i)
        ensures k in t && t[k] == Part(parse, pieces, i)[k]
      {
        if i > 0 { assert Part(parse, rest, i - 1) == Part(parse, pieces, i); }
      }
    }
  }

  /** The sizes of the parts add up. */
  lemma {:induction false} FoldSize<K, V>(parse: string -> Option<map<K, V>>, pieces: seq<string>, m: map<K, V>)
    requires Fold(parse, pieces, m).Some?
    ensures |Fold(parse, pieces, m).value| == |m| + SizeSum(parse, pieces)
    decreases |pieces|
  {
    if pieces != [] {
      var c := Contribution(parse, pieces[0]).value;
      assert Part(parse, pieces, 0) == c;
      UnionSize(m, c);
      FoldSize(parse, pieces[1..], m + c);
    }
  }

  lemma UnionSize<K, V>(m: map<K, V>, c: map<K, V>)
    requires c.Keys !! m.Keys
    ensures |m + c| == |m| + |c|
  {
    assert (m + c).Keys == m.Keys + c.Keys;
    assert |m.Keys + c.Keys| == |m.Keys| + |c.Keys|;
  }

  lemma HasKey<K, V>(t: map<K, V>)
    ensures |t| != 0 <==> exists k :: k in t
  {
    if |t| != 0 {
      assert |t.Keys| != 0;
      var k :| k in t.Keys;
      assert k in t;
    }
    if k :| k in t {
      assert k in t.Keys;
    }
  }

  // Order does not matter

  lemma FoldCons<K, V>(parse: string -> Option<map<K, V>>, x: string, rest: seq<string>, m: map<K, V>)
    ensures Fold(parse, [x] + rest, m) ==
      match Contribution(parse, x)
      case None => None
      case Some(c) => if c.Keys !! m.Keys then Fold(parse, rest, m + c) else None
  {
    assert ([x] + rest)[1..] == rest;
  }

  lemma SwapFirst<K, V>(parse: string -> Option<map<K, V>>, x: string, y: string, rest: seq<string>, m: map<K, V>)
    ensures Fold(parse, [x, y] + rest, m) == Fold(parse, [y, x] + rest, m)
  {
    assert ([x, y] + rest)[1..] == [y] + rest && ([y] + rest)[1..] == rest;
    assert ([y, x] + rest)[1..] == [x] + rest && ([x] + rest)[1..] == rest;
    var cx, cy := Contribution(parse, x), Contribution(parse, y);
    hide Contribution;
    if cx.Some? && cy.Some? && cx.value.Keys !! m.Keys && cy.value.Keys !! m.Keys && cx.value.Keys !! cy.value.Keys {
      assert m + cx.value + cy.value == m + cy.value + cx.value;
    }
  }

  lemma {:induction false} ToFront<K, V>(
    parse: string -> Option<map<K, V>>, a: seq<string>, x: string, b: seq<string>, m: map<K, V>)
    ensures Fold(parse, a + [x] + b, m) == Fold(parse, [x] + a + b, m)
    decreases |a|
  {
    if a == [] {
      assert a + [x] + b == [x] + a + b;
    } else {
      var y, tail := a[0], a[1..];
      assert a == [y] + tail;
      SwapFirst(parse, x, y, tail + b, m);
      FoldCons(parse, y, tail + [x] + b, m);
      FoldCons(parse, y, [x] + tail + b, m);
      hide Fold, Contribution;
      assert a + [x] + b == [y] + (tail + [x] + b);
      assert [x] + a + b == [x, y] + (tail + b);
      assert [y, x] + (tail + b) == [y] + ([x] + tail + b);
      var c := Contribution(parse, y);
      if c.Some? && c.value.Keys !! m.Keys {
        ToFront(parse, tail, x, b, m + c.value);
      }
    }
  }

  lemma {:induction false} FoldConcat<K, V>(
    parse: string -> Option<map<K, V>>, a: seq<string>, b: seq<string>, m: map<K, V>)
    ensures Fold(parse, a + b, m) ==
      match Fold(parse, a, m)
      case None => None
      case Some(t) => Fold(parse, b, t)
    decreases |a|
  {
    if a == [] {
      assert a + b == b;
    } else {
      assert a + b == [a[0]] + (a[1..] + b);
      FoldCons(parse, a[0], a[1..] + b, m);
      var c := Contribution(parse, a[0]);
      if c.Some? && c.value.Keys !! m.Keys {
        FoldConcat(parse, a[1..], b, m + c.value);
      }
    }
  }

  lemma RemoveOne(one: seq<string>, two: seq<string>, i: nat)
    requires multiset(one) == multiset(two) && two != [] && i < |one| && one[i] == two[0]
    ensures multiset(one[..i] + one[i + 1..]) == multiset(two[1..])
    ensures one == one[..i] + [two[0]] + one[i + 1..]
  {
    var a, b := one[..i], one[i + 1..];
    assert one == a + [two[0]] + b;
    assert two == [two[0]] + two[1..];
    assert multiset(a + [two[0]] + b) == multiset(a + [two[0]]) + multiset(b);
    assert multiset(a + [two[0]]) == multiset(a) + multiset{two[0]};
    assert multiset([two[0]] + two[1..]) == multiset{two[0]} + multiset(two[1..]);
    assert multiset(a + b) == multiset(a) + multiset(b);
    assert multiset(a + b) == multiset(one) - multiset{two[0]};
    assert multiset(two[1..]) == multiset(two) - multiset{two[0]};
  }

  lemma {:induction false} PermutedFold<K, V>(
    parse: string -> Option<map<K, V>>, one: seq<string>, two: seq<string>, m: map<K, V>)
    requires multiset(one) == multiset(two)
    ensures Fold(parse, one, m) == Fold(parse, two, m)
    decreases |two|
  {
    if two == [] {
      assert |multiset(one)| == 0;
    } else {
      var x := two[0];
      assert x in multiset(two);
      var i :| 0 <= i < |one| && one[i] == x;
      var a, b := one[..i], one[i + 1..];
      RemoveOne(one, two, i);
      ToFront(parse, a, x, b, m);
      assert [x] + a + b == [x] + (a + b);
      assert two == [x] + two[1..];
      FoldCons(parse, x, a + b, m);
      FoldCons(parse, x, two[1..], m);
      hide Fold, Contribution;
      var c := Contribution(parse, x);
      if c.Some? && c.value.Keys !! m.Keys {
        PermutedFold(parse, a + b, two[1..], m + c.value);
      }
    }
  }

  predicate NoSemicolons(pieces: seq<string>) { forall i :: 0 <= i < |pieces| ==> ';' !in pieces[i] }

  lemma ParseJoined<K, V>(parse: string -> Option<map<K, V>>, pieces: seq<string>)
    requires pieces != [] && NoSemicolons(pieces)
    ensures ParseTable(parse, Join(pieces, ";")) == NonEmptyTable(Fold(parse, pieces, map[]))
  {
    SplitJoin(pieces, ';');
  }

  /** Writing the entries in another order changes neither success nor the table. */
  lemma OrderIrrelevant<K, V>(parse: string -> Option<map<K, V>>, one: seq<string>, two: seq<string>)
    requires one != [] && two != [] && NoSemicolons(one) && NoSemicolons(two) && multiset(one) == multiset(two)
    ensures ParseTable(parse, Join(one, ";")) == ParseTable(parse, Join(two, ";"))
  {
    ParseJoined(parse, one);
    ParseJoined(parse, two);
    PermutedFold(parse, one, two, map[]);
  }

  // Which entries a text has, and which keys they name

  ghost predicate EntriesParse<K, V>(parse: string -> Option<map<K, V>>, pieces: seq<string>) {
    forall i :: 0 <= i < |pieces| ==> Trim(pieces[i]) != "" ==> parse(Trim(pieces[i])).Some?
  }

  /** An accepted entry has exactly the keys that it names, and at least one. */
  ghost predicate Naming<K(!new), V>(parse: string -> Option<map<K, V>>, names: (string, K) -> bool) {
    forall e :: parse(e).Some? ==>
      && (forall k :: k in parse(e).value <==> names(e, k))
      && (exists k :: k in parse(e).value)
  }

  predicate InPiece<K>(names: (string, K) -> bool, piece: string, k: K) {
    Trim(piece) != "" && names(Trim(piece), k)
  }

  ghost predicate NoOverlap<K(!new)>(names: (string, K) -> bool, pieces: seq<string>) {
    forall i, j, k :: 0 <= i < j < |pieces| && InPiece(names, pieces[i], k) ==> !InPiece(names, pieces[j], k)
  }

  predicate HasEntry(pieces: seq<string>) { exists i :: 0 <= i < |pieces| && Trim(pieces[i]) != "" }

  /** A text is accepted exactly when it has an entry, every entry is well formed, and no key is named by
      two of them: an overlap always fails the whole table and never replaces anything. */
  lemma AcceptsIff<K(!new), V>(parse: string -> Option<map<K, V>>, names: (string, K) -> bool, raw: string)
    requires Naming(parse, names)
    ensures var pieces := Split(raw, ';');
      ParseTable(parse, raw).Some? <==> EntriesParse(parse, pieces) && NoOverlap(names, pieces) && HasEntry(pieces)
  {
    var pieces := Split(raw, ';');
    FoldSucceedsIff(parse, pieces, map[]);
    PiecesParse(parse, pieces);
    if EntriesParse(parse, pieces) {
      PiecesDisjoint(parse, names, pieces);
      if NoOverlap(names, pieces) { NonBlank(parse, names, pieces); }
    }
  }

  lemma PiecesParse<K, V>(parse: string -> Option<map<K, V>>, pieces: seq<string>)
    ensures AllParse(parse, pieces) <==> EntriesParse(parse, pieces)
  {
    hide Trim;
    forall i | 0 <= i < |pieces|
      ensures Contribution(parse, pieces[i]).Some? <==> (Trim(pieces[i]) != "" ==> parse(Trim(pieces[i])).Some?)
    {
    }
  }

  lemma PieceKey<K(!new), V>(
    parse: string -> Option<map<K, V>>, names: (string, K) -> bool, pieces: seq<string>, i: nat, k: K)
    requires Naming(parse, names) && i < |pieces| && EntriesParse(parse, pieces)
    ensures k in Part(parse, pieces, i) <==> InPiece(names, pieces[i], k)
  {
    hide Trim;
  }

  lemma PiecesDisjoint<K(!new), V>(
    parse: string -> Option<map<K, V>>, names: (string, K) -> bool, pieces: seq<string>)
    requires Naming(parse, names) && EntriesParse(parse, pieces)
    ensures Disjoint(parse, pieces, map[]) <==> NoOverlap(names, pieces)
  {
    forall i, k | 0 <= i < |pieces|
      ensures k in Part(parse, pieces, i) <==> InPiece(names, pieces[i], k)
    {
      PieceKey(parse, names, pieces, i, k);
    }
    hide Part, InPiece, EntriesParse, Naming;
    if NoOverlap(names, pieces) {
      forall i, j | 0 <= i < j < |pieces|
        ensures Part(parse, pieces, i).Keys !! Part(parse, pieces, j).Keys
      {
        forall k | k in Part(parse, pieces, i)
          ensures k !in Part(parse, pieces, j)
        {
        }
      }
    }
    if Disjoint(parse, pieces, map[]) {
      forall i, j, k | 0 <= i < j < |pieces| && InPiece(names, pieces[i], k)
        ensures !InPiece(names, pieces[j], k)
      {
        assert k in Part(parse, pieces, i).Keys;
      }
    }
  }

  /** The keys of a whole table are those that its entries name. */
  lemma TableKey<K(!new), V>(
    parse: string -> Option<map<K, V>>, names: (string, K) -> bool, pieces: seq<string>, t: map<K, V>, k: K)
    requires Naming(parse, names) && Fold(parse, pieces, map[]) == Some(t)
    ensures EntriesParse(parse, pieces)
    ensures k in t <==> exists i :: 0 <= i < |pieces| && InPiece(names, pieces[i], k)
  {
    FoldSucceedsIff(parse, pieces, map[]);
    PiecesParse(parse, pieces);
    FoldKey(parse, pieces, map[], t, k);
    hide *;
    if k in t {
      var i :| 0 <= i < |pieces| && k in Part(parse, pieces, i);
      PieceKey(parse, names, pieces, i, k);
    }
    if i :| 0 <= i < |pieces| && InPiece(names, pieces[i], k) {
      PieceKey(parse, names, pieces, i, k);
    }
  }

  lemma NonBlank<K(!new), V>(
    parse: string -> Option<map<K, V>>, names: (string, K) -> bool, pieces: seq<string>)
    requires Naming(parse, names) && Fold(parse, pieces, map[]).Some?
    ensures |Fold(parse, pieces, map[]).value| != 0 <==> HasEntry(pieces)
  {
    var t := Fold(parse, pieces, map[]).value;
    HasKey(t);
    if i :| 0 <= i < |pieces| && Trim(pieces[i]) != "" {
      FoldSucceedsIff(parse, pieces, map[]);
      PiecesParse(parse, pieces);
      assert parse(Trim(pieces[i])).Some?;
      hide Fold, Trim;
      var k :| k in parse(Trim(pieces[i])).value;
      assert InPiece(names, pieces[i], k);
      TableKey(parse, names, pieces, t, k);
      assert k in t;
    }
    if k :| k in t {
      TableKey(parse, names, pieces, t, k);
      var i :| 0 <= i < |pieces| && InPiece(names, pieces[i], k);
      assert Trim(pieces[i]) != "";
    }
  }

  // Printing a table and reading it back

  function RenderAll<K, V>(render: (K, V) -> string, t: map<K, V>, ks: seq<K>): seq<string>
    requires forall i :: 0 <= i < |ks| ==> ks[i] in t
  {
    if ks == [] then [] else [render(ks[0], t[ks[0]])] + RenderAll(render, t, ks[1..])
  }

  /** The table as text, its keys in the order of ks. */
  function Render<K, V>(render: (K, V) -> string, t: map<K, V>, ks: seq<K>): string
    requires forall i :: 0 <= i < |ks| ==> ks[i] in t
  {
    Join(RenderAll(render, t, ks), ";")
  }

  ghost predicate Lists<K, V>(ks: seq<K>, t: map<K, V>) {
    && (forall i :: 0 <= i < |ks| ==> ks[i] in t)
    && (forall i, j :: 0 <= i < j < |ks| ==> ks[i] != ks[j])
    && (forall k :: k in t ==> k in ks)
  }

  ghost predicate ReadsBack<K, V>(parse: string -> Option<map<K, V>>, render: (K, V) -> string, k: K, v: V) {
    Contribution(parse, render(k, v)) == Some(map[k := v]) && ';' !in render(k, v)
  }

  ghost predicate Adds<K(!new), V>(read: map<K, V>, t: map<K, V>, ks: seq<K>, m: map<K, V>) {
    && (forall k :: k in read <==> k in m || k in ks)
    && (forall k :: k in m ==> k in read && read[k] == m[k])
    && (forall k :: k in ks ==> k in read && k in t && read[k] == t[k])
  }

  lemma {:induction false} RowsReadBack<K(!new), V>(
    parse: string -> Option<map<K, V>>, render: (K, V) -> string, t: map<K, V>, ks: seq<K>, m: map<K, V>)
    requires forall i :: 0 <= i < |ks| ==>
      ks[i] in t && ks[i] !in m && ReadsBack(parse, render, ks[i], t[ks[i]])
    requires forall i, j :: 0 <= i < j < |ks| ==> ks[i] != ks[j]
    ensures |RenderAll(render, t, ks)| == |ks| && NoSemicolons(RenderAll(render, t, ks))
    ensures Fold(parse, RenderAll(render, t, ks), m).Some?
    ensures Adds(Fold(parse, RenderAll(render, t, ks), m).value, t, ks, m)
    decreases |ks|
  {
    if ks != [] {
      var k, one := ks[0], map[ks[0] := t[ks[0]]];
      FoldCons(parse, render(k, t[k]), RenderAll(render, t, ks[1..]), m);
      assert ReadsBack(parse, render, k, t[k]);
      hide Fold, Contribution, Adds;
      RowsReadBack(parse, render, t, ks[1..], m + one);
      AddsStep(Fold(parse, RenderAll(render, t, ks), m).value, t, ks, m);
    }
  }

  lemma AddsStep<K(!new), V>(read: map<K, V>, t: map<K, V>, ks: seq<K>, m: map<K, V>)
    requires ks != [] && ks[0] in t && ks[0] !in m
    requires Adds(read, t, ks[1..], m + map[ks[0] := t[ks[0]]])
    ensures Adds(read, t, ks, m)
  {
    assert ks == [ks[0]] + ks[1..];
  }

  /** If each entry alone reads back, so does every table, with its entries printed in any order. */
  lemma PrintedReadsBack<K(!new), V>(
    parse: string -> Option<map<K, V>>, render: (K, V) -> string, t: map<K, V>, ks: seq<K>)
    requires |t| != 0 && Lists(ks, t) && forall k :: k in t ==> ReadsBack(parse, render, k, t[k])
    ensures ParseTable(parse, Render(render, t, ks)) == Some(t)
  {
    RowsReadBack(parse, render, t, ks, map[]);
    HasKey(t);
    assert ks != [] by {
      var k :| k in t;
      assert k in ks;
    }
    ParseJoined(parse, RenderAll(render, t, ks));
    var read := Fold(parse, RenderAll(render, t, ks), map[]).value;
    hide Fold;
    assert read == t;
  }

  // What both grammars share inside an entry

  /** A role list: no blank and no ill-formed name. */
  function RoleList(raw: string): Option<seq<string>> {
    var parts := TrimAll(Split(raw, ','));
    if AllValid(parts) then Some(parts) else None
  }

  method ParseRoleList(raw: string) returns (r: Option<seq<string>>)
    ensures r == RoleList(raw)
  {
    var parts := Split(raw, ',');
    TrimAllFacts(parts);
    hide ValidRole, Trim;
    var roles := [];
    for i := 0 to |parts|
      invariant AllValid(roles) && roles == TrimAll(parts)[..i]
    {
      var role := Trim(parts[i]);
      if role == "" {
        BlankIsInvalid();
        assert TrimAll(parts)[i] == role;
        return None;
      }
      if !ValidRole(role) {
        assert TrimAll(parts)[i] == role;
        return None;
      }
      roles := roles + [role];
    }
    assert TrimAll(parts)[..|parts|] == TrimAll(parts);
    r := Some(roles);
  }

  /** Exactly what a list gives: its entries in order, without their outer spaces, and only if every one of
      them is a name. */
  lemma RoleListIff(raw: string, roles: seq<string>)
    ensures RoleList(raw) == Some(roles) <==>
      && |roles| == |Split(raw, ',')|
      && forall k :: 0 <= k < |roles| ==> roles[k] == Trim(Split(raw, ',')[k]) && ValidRole(roles[k])
  {
    var parts := Split(raw, ',');
    TrimAllFacts(parts);
    hide Trim, ValidRole, Split, TrimAll;
    if |roles| == |parts| && forall k :: 0 <= k < |roles| ==> roles[k] == Trim(parts[k]) && ValidRole(roles[k]) {
      assert roles == TrimAll(parts);
    }
  }

  lemma BlankIsInvalid()
    ensures !ValidRole("")
  {
  }

  /** The list is written back as it was read. */
  lemma RoleListUndoesJoin(roles: seq<string>)
    requires roles != [] && AllValid(roles)
    ensures RoleList(Join(roles, ",")) == Some(roles)
    ensures Trimmed(Join(roles, ",")) && Join(roles, ",") != ""
    ensures forall c :: c in Join(roles, ",") ==> IsRoleChar(c) || c == ','
  {
    forall k | 0 <= k < |roles|
      ensures ',' !in roles[k]
    {
      ValidRoleFacts(roles[k]);
    }
    SplitJoin(roles, ',');
    TrimAllValid(roles);
    JoinedChars(roles);
  }

  lemma {:induction false} JoinedChars(roles: seq<string>)
    requires roles != [] && AllValid(roles)
    ensures Trimmed(Join(roles, ",")) && Join(roles, ",") != ""
    ensures forall c :: c in Join(roles, ",") ==> IsRoleChar(c) || c == ','
  {
    ValidRoleFacts(roles[0]);
    if |roles| > 1 {
      JoinedChars(roles[1..]);
      var rest := Join(roles[1..], ",");
      var joined := roles[0] + "," + rest;
      assert joined[|joined| - 1] == rest[|rest| - 1];
    }
  }

  /** A list that is accepted is not empty: an SSH port always has somebody it is meant for. */
  lemma AcceptedRoles(raw: string)
    requires RoleList(raw).Some?
    ensures RoleList(raw).value != [] && AllValid(RoleList(raw).value)
  {
    TrimAllFacts(Split(raw, ','));
  }

  predicate IsHostChar(c: char) {
    'A' <= c <= 'Z' || 'a' <= c <= 'z' || '0' <= c <= '9' || c == '.' || c == '_' || c == '-'
  }

  predicate PlainHost(h: string) { forall i :: 0 <= i < |h| ==> IsHostChar(h[i]) }

  datatype HostPort = HostPort(host: string, port: string)

  /** url.Parse on an authority with a plain host: the port is what follows the colon, "" if there is
      none or if nothing follows it. */
  function ParseHostPort(s: string): Option<HostPort> {
    match Cut(s, ':')
    case None => if PlainHost(s) then Some(HostPort(s, "")) else None
    case Some((host, port)) => if PlainHost(host) && AllDigits(port) then Some(HostPort(host, port)) else None
  }

  lemma HostPortParses(host: string, port: string)
    requires PlainHost(host) && AllDigits(port)
    ensures ParseHostPort(host + ":" + port) == Some(HostPort(host, port))
    ensures ParseHostPort(host) == Some(HostPort(host, ""))
  {
    NotIn(host);
    CutFirst(host, ':', port);
    CutFacts(host, ':');
  }

  lemma NotIn(host: string)
    requires PlainHost(host)
    ensures ':' !in host && ';' !in host && '|' !in host && '=' !in host && Trimmed(host)
  {
    if host != "" {
      assert forall c :: c in host ==> exists i :: 0 <= i < |host| && host[i] == c;
    }
  }
}
