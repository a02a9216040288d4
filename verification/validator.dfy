/** The check that runs after parsing: a file may not declare the same type
    identifier twice, and the outcomes for many files are gathered into
    either the list of valid files or the list of invalid ones. */
module Validator {
  import opened IdlTypes
  import opened IdlParser

  /** A parsed file with its name and path. */
  datatype FileItem = FileItem(name: string, path: string, file: File)

  /** Why a file was rejected: the type identifiers it declares more than
      once, each listed once. */
  datatype FileValidationError = DuplicateTypeIdentifiers(fileItem: FileItem, ids: seq<TypeIdentifier>)

  datatype InvalidFileItem = InvalidFileItem(name: string, path: string, error: FileValidationError)

  datatype Either<+L, +R> = Left(a: L) | Right(b: R)

  /** The type identifiers the constructs declare, in order; a topic
      declares none. */
  function DeclaredTypes(cs: seq<Construct>): (ids: seq<TypeIdentifier>)
    ensures |ids| <= |cs|
    ensures forall i :: 0 <= i < |cs| && !cs[i].TopicObject? ==> DeclaredType(cs[i]).value in ids
    decreases |cs|
  {
    if |cs| == 0 then []
    else
      match DeclaredType(cs[0])
      case None => DeclaredTypes(cs[1..])
      case Just(id) => [id] + DeclaredTypes(cs[1..])
  }

  /** Declared types are collected construct by construct, in order. */
  lemma {:induction false} DeclaredTypesAppend(a: seq<Construct>, b: seq<Construct>)
    ensures DeclaredTypes(a + b) == DeclaredTypes(a) + DeclaredTypes(b)
    decreases |a|
  {
    if |a| == 0 {
      assert a + b == b;
    } else {
      assert (a + b)[0] == a[0];
      assert (a + b)[1..] == a[1..] + b;
      DeclaredTypesAppend(a[1..], b);
    }
  }

  /** A single construct contributes its own type identifier, or nothing
      when it is a topic. */
  lemma DeclaredTypesOne(c: Construct)
    ensures c.TopicObject? ==> DeclaredTypes([c]) == []
    ensures !c.TopicObject? ==> DeclaredTypes([c]) == [DeclaredType(c).value]
  {
    assert [c][1..] == [];
  }

  function Keys<T>(pairs: seq<(T, nat)>): (ks: seq<T>)
    ensures |ks| == |pairs| && forall i :: 0 <= i < |ks| ==> ks[i] == pairs[i].0
  {
    seq(|pairs|, i requires 0 <= i < |pairs| => pairs[i].0)
  }

  /** The keys of the duplicates of `ids`: each identifier that occurs more
      than once, listed once, in the order of first occurrence. */
  lemma DuplicateKeys(ids: seq<TypeIdentifier>)
    ensures var ks := Keys(FindDuplicates(ids));
      (forall k :: 0 <= k < |ks| ==> multiset(ids)[ks[k]] > 1) &&
      (forall i :: 0 <= i < |ids| && multiset(ids)[ids[i]] > 1 ==> ids[i] in ks) &&
      (forall k, l :: 0 <= k < l < |ks| ==> ks[k] != ks[l]) &&
      (forall k, l :: 0 <= k < l < |ks| ==> ks[k] in ids && ks[l] in ids && FirstIndex(ids, ks[k]) < FirstIndex(ids, ks[l]))
  {
    var dups := FindDuplicates(ids);
    var ks := Keys(dups);
    forall i | 0 <= i < |ids| && multiset(ids)[ids[i]] > 1
      ensures ids[i] in ks
    {
      var k :| 0 <= k < |dups| && dups[k] == (ids[i], multiset(ids)[ids[i]]);
      assert ks[k] == ids[i];
    }
  }

  /** Rejects a file that declares a type identifier more than once, listing
      each repeated identifier once, in the order it first appears. */
  function Validate(item: FileItem): (r: Either<FileValidationError, FileItem>)
    ensures r.Right? <==> AllDifferent(DeclaredTypes(item.file.constructs))
    ensures r.Right? ==> r.b == item
    ensures r.Left? ==> r.a.fileItem == item
    ensures r.Left? ==> var ids := DeclaredTypes(item.file.constructs);
      (forall k :: 0 <= k < |r.a.ids| ==> multiset(ids)[r.a.ids[k]] > 1) &&
      (forall i :: 0 <= i < |ids| && multiset(ids)[ids[i]] > 1 ==> ids[i] in r.a.ids) &&
      (forall k, l :: 0 <= k < l < |r.a.ids| ==> r.a.ids[k] != r.a.ids[l]) &&
      (forall k, l :: 0 <= k < l < |r.a.ids| ==>
         r.a.ids[k] in ids && r.a.ids[l] in ids && FirstIndex(ids, r.a.ids[k]) < FirstIndex(ids, r.a.ids[l]))
  {
    var ids := DeclaredTypes(item.file.constructs);
    var dups := FindDuplicates(ids);
    NoDuplicates(ids);
    DuplicateKeys(ids);
    if dups != [] then Left(DuplicateTypeIdentifiers(item, Keys(dups))) else Right(item)
  }

  /** One step of the fold: a valid file joins the first list, a rejected one
      joins the second as an invalid file item. */
  function Gather(acc: (seq<FileItem>, seq<InvalidFileItem>), item: Either<FileValidationError, FileItem>): (seq<FileItem>, seq<InvalidFileItem>) {
    match item
    case Left(e) => (acc.0, acc.1 + [InvalidFileItem(e.fileItem.name, e.fileItem.path, e)])
    case Right(f) => (acc.0 + [f], acc.1)
  }

  function Fold(acc: (seq<FileItem>, seq<InvalidFileItem>), items: seq<Either<FileValidationError, FileItem>>): (seq<FileItem>, seq<InvalidFileItem>)
    decreases |items|
  {
    if |items| == 0 then acc else Fold(Gather(acc, items[0]), items[1..])
  }

  /** The valid files, in order. */
  function Valids(items: seq<Either<FileValidationError, FileItem>>): (fs: seq<FileItem>)
    ensures |fs| <= |items|
    ensures (forall i :: 0 <= i < |items| ==> items[i].Right?) ==>
      |fs| == |items| && forall i :: 0 <= i < |items| ==> fs[i] == items[i].b
    decreases |items|
  {
    if |items| == 0 then []
    else (if items[0].Right? then [items[0].b] else []) + Valids(items[1..])
  }

  /** One invalid file item per rejected file, in order. */
  function Invalids(items: seq<Either<FileValidationError, FileItem>>): (es: seq<InvalidFileItem>)
    ensures |es| <= |items|
    ensures es == [] <==> forall i :: 0 <= i < |items| ==> items[i].Right?
    ensures forall k :: 0 <= k < |es| ==> exists i :: 0 <= i < |items| && items[i].Left? && es[k].error == items[i].a
    decreases |items|
  {
    if |items| == 0 then []
    else
      var rest := Invalids(items[1..]);
      var here := match items[0]
        case Left(e) => [InvalidFileItem(e.fileItem.name, e.fileItem.path, e)]
        case Right(_) => [];
      here + rest
  }

  /** Together the valid and the invalid files account for every outcome. */
  lemma {:induction false} OutcomesCounted(items: seq<Either<FileValidationError, FileItem>>)
    ensures |Valids(items)| + |Invalids(items)| == |items|
    decreases |items|
  {
    if |items| > 0 {
      OutcomesCounted(items[1..]);
    }
  }

  /** The valid files of `a + b` are those of `a` followed by those of `b`. */
  lemma {:induction false} ValidsAppend(a: seq<Either<FileValidationError, FileItem>>, b: seq<Either<FileValidationError, FileItem>>)
    ensures Valids(a + b) == Valids(a) + Valids(b)
    decreases |a|
  {
    if |a| == 0 {
      assert a + b == b;
    } else {
      var here := if a[0].Right? then [a[0].b] else [];
      assert (a + b)[0] == a[0];
      assert (a + b)[1..] == a[1..] + b;
      assert Valids(a + b) == here + Valids(a[1..] + b);
      ValidsAppend(a[1..], b);
      assert Valids(a) == here + Valids(a[1..]);
    }
  }

  /** The first outcome contributes its invalid file item, if any, ahead of
      those of the rest. */
  lemma InvalidsCons(items: seq<Either<FileValidationError, FileItem>>)
    requires |items| > 0
    ensures Invalids(items) == (if items[0].Left? then [InvalidFileItem(items[0].a.fileItem.name, items[0].a.fileItem.path, items[0].a)] else []) + Invalids(items[1..])
  {
  }

  /** The invalid file items of `a + b` are those of `a` followed by those
      of `b`. */
  lemma {:induction false} InvalidsAppend(a: seq<Either<FileValidationError, FileItem>>, b: seq<Either<FileValidationError, FileItem>>)
    ensures Invalids(a + b) == Invalids(a) + Invalids(b)
    decreases |a|
  {
    if |a| == 0 {
      assert a + b == b;
    } else {
      var ab := a + b;
      assert ab[0] == a[0] && ab[1..] == a[1..] + b;
      InvalidsCons(ab);
      InvalidsCons(a);
      InvalidsAppend(a[1..], b);
      var here := if a[0].Left? then [InvalidFileItem(a[0].a.fileItem.name, a[0].a.fileItem.path, a[0].a)] else [];
      ConsAppend(here, Invalids(a[1..]), Invalids(b), Invalids(ab), Invalids(a), Invalids(a[1..] + b));
    }
  }

  /** `h` ahead of `x`, then `y`, is `h` ahead of `x + y`. */
  lemma ConsAppend<T>(h: seq<T>, x: seq<T>, y: seq<T>, hxy: seq<T>, hx: seq<T>, xy: seq<T>)
    requires hxy == h + xy && hx == h + x && xy == x + y
    ensures hxy == hx + y
  {
  }

  /** Both lists are built outcome by outcome: the lists for `a + b` are
      those for `a` followed by those for `b`. */
  lemma OutcomesAppend(a: seq<Either<FileValidationError, FileItem>>, b: seq<Either<FileValidationError, FileItem>>)
    ensures Valids(a + b) == Valids(a) + Valids(b)
    ensures Invalids(a + b) == Invalids(a) + Invalids(b)
  {
    ValidsAppend(a, b);
    InvalidsAppend(a, b);
  }

  /** The outcome at index `i` adds one entry to its list, right after the
      entries of the outcomes before it: a rejected file is the next invalid
      file item, with its name, path and error, and an accepted file is the
      next valid file. */
  lemma OutcomeAt(items: seq<Either<FileValidationError, FileItem>>, i: nat)
    requires i < |items|
    ensures var before := items[..i];
      match items[i]
      case Left(e) =>
        && |Invalids(items)| > |Invalids(before)|
        && Invalids(items)[|Invalids(before)|] == InvalidFileItem(e.fileItem.name, e.fileItem.path, e)
        && |Invalids(items[..i + 1])| == |Invalids(before)| + 1
        && Valids(items[..i + 1]) == Valids(before)
      case Right(f) =>
        && |Valids(items)| > |Valids(before)|
        && Valids(items)[|Valids(before)|] == f
        && |Valids(items[..i + 1])| == |Valids(before)| + 1
        && Invalids(items[..i + 1]) == Invalids(before)
  {
    var before := items[..i];
    var one := [items[i]];
    var after := items[i + 1..];
    assert items == before + one + after;
    assert items[..i + 1] == before + one;
    OutcomesAppend(before + one, after);
    OutcomesAppend(before, one);
    assert one[1..] == [];
  }

  /** The fold appends the valid and the invalid files to the accumulator. */
  lemma {:induction false} FoldSplits(acc: (seq<FileItem>, seq<InvalidFileItem>), items: seq<Either<FileValidationError, FileItem>>)
    ensures Fold(acc, items) == (acc.0 + Valids(items), acc.1 + Invalids(items))
    decreases |items|
  {
    if |items| == 0 {
      assert acc.0 + [] == acc.0 && acc.1 + [] == acc.1;
    } else {
      var next := Gather(acc, items[0]);
      FoldSplits(next, items[1..]);
      match items[0]
      case Left(e) =>
        var x := InvalidFileItem(e.fileItem.name, e.fileItem.path, e);
        assert Invalids(items) == [x] + Invalids(items[1..]);
        assert Valids(items) == [] + Valids(items[1..]) == Valids(items[1..]);
        assert acc.1 + [x] + Invalids(items[1..]) == acc.1 + ([x] + Invalids(items[1..]));
      case Right(f) =>
        assert Valids(items) == [f] + Valids(items[1..]);
        assert Invalids(items) == [] + Invalids(items[1..]) == Invalids(items[1..]);
        assert acc.0 + [f] + Valids(items[1..]) == acc.0 + ([f] + Valids(items[1..]));
    }
  }

  /** All files when none was rejected, otherwise the rejected ones. */
  function ValidateAll(items: seq<Either<FileValidationError, FileItem>>): (r: Either<seq<InvalidFileItem>, seq<FileItem>>)
    ensures r.Right? <==> forall i :: 0 <= i < |items| ==> items[i].Right?
    ensures r.Right? ==> r.b == Valids(items) && |r.b| == |items| && forall i :: 0 <= i < |items| ==> r.b[i] == items[i].b
    ensures r.Left? ==> r.a == Invalids(items)
  {
    var acc := Fold(([], []), items);
    FoldSplits(([], []), items);
    if |acc.1| > 0 then Left(acc.1) else Right(acc.0)
  }
}
