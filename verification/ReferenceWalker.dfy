/** The depth-first walk over the external references of a schema document. */
module ReferenceWalker {
  /** A file, by its path with symbolic links resolved. */
  type File = nat

  /** One reference of a document: a fragment of the document itself, something that is
      no local relative JSON file inside the schema root, or another file. */
  datatype Reference = Fragment | Refused | To(file: File)

  /** What reading a file gives: no regular, readable JSON file, or its references in
      the order they are followed. */
  datatype Document = Unusable | Document(references: seq<Reference>)

  type Files = map<File, Document>

  predicate Edge(files: Files, a: File, b: File) {
    a in files && files[a].Document? && To(b) in files[a].references
  }

  predicate Good(files: Files, a: File) {
    a in files && files[a].Document? && Refused !in files[a].references
  }

  /** A walk along references. */
  ghost predicate Path(files: Files, p: seq<File>) {
    p != [] && forall i :: 0 <= i < |p| - 1 ==> Edge(files, p[i], p[i + 1])
  }

  ghost predicate Reaches(files: Files, a: File, b: File) {
    exists p: seq<File> :: Path(files, p) && p[0] == a && p[|p| - 1] == b
  }

  /** Reaches by at least one reference. */
  ghost predicate Precedes(files: Files, a: File, b: File) {
    exists c :: Edge(files, a, c) && Reaches(files, c, b)
  }

  /** Something reachable from `a` cannot be used, or refers back to itself. */
  ghost predicate Faulty(files: Files, a: File) {
    exists x :: Reaches(files, a, x) && (!Good(files, x) || Precedes(files, x, x))
  }

  lemma ReachesSelf(files: Files, a: File)
    ensures Reaches(files, a, a)
  {
    assert Path(files, [a]) && [a][0] == a && [a][|[a]| - 1] == a;
  }

  lemma ReachesBy(files: Files, a: File, b: File, c: File)
    requires Edge(files, a, b) && Reaches(files, b, c)
    ensures Reaches(files, a, c)
  {
    var p :| Path(files, p) && p[0] == b && p[|p| - 1] == c;
    var q := [a] + p;
    forall i | 0 <= i < |q| - 1 ensures Edge(files, q[i], q[i + 1]) {
      if i > 0 { assert Edge(files, p[i - 1], p[i]); }
    }
    assert Path(files, q) && q[0] == a && q[|q| - 1] == c;
  }

  lemma ReachesThen(files: Files, a: File, b: File, c: File)
    requires Reaches(files, a, b) && Edge(files, b, c)
    ensures Reaches(files, a, c)
  {
    var p :| Path(files, p) && p[0] == a && p[|p| - 1] == b;
    var q := p + [c];
    forall i | 0 <= i < |q| - 1 ensures Edge(files, q[i], q[i + 1]) {
      if i < |p| - 1 { assert Edge(files, p[i], p[i + 1]); }
    }
    assert Path(files, q) && q[0] == a && q[|q| - 1] == c;
  }

  lemma FaultySpreads(files: Files, a: File, b: File)
    requires Edge(files, a, b) && Faulty(files, b)
    ensures Faulty(files, a)
  {
    var x :| Reaches(files, b, x) && (!Good(files, x) || Precedes(files, x, x));
    ReachesBy(files, a, b, x);
  }

  // ---- finished files, in the order they were finished ----

  /** Every file is good and refers only to files finished before it. */
  ghost predicate Finished(files: Files, order: seq<File>) {
    && (forall i :: 0 <= i < |order| ==> Good(files, order[i]))
    && (forall i, b :: 0 <= i < |order| && Edge(files, order[i], b) ==> b in order[..i])
    && (forall i, j :: 0 <= i < j < |order| ==> order[i] != order[j])
  }

  lemma {:induction false} PathGoesBack(files: Files, order: seq<File>, i: nat, p: seq<File>)
    requires Finished(files, order) && i < |order| && Path(files, p) && p[0] == order[i]
    ensures p[|p| - 1] in order[..i + 1]
    decreases |p|
  {
    if |p| == 1 {
      assert order[..i + 1][i] == p[0];
    } else {
      assert Edge(files, p[0], p[1]);
      var j :| 0 <= j < i && order[..i][j] == p[1];
      var rest := p[1..];
      forall k | 0 <= k < |rest| - 1 ensures Edge(files, rest[k], rest[k + 1]) {
        assert Edge(files, p[k + 1], p[k + 2]);
      }
      PathGoesBack(files, order, j, rest);
      assert order[..j + 1] <= order[..i + 1];
    }
  }

  /** What is finished is free of faults, and closed. */
  lemma FinishedIsSound(files: Files, order: seq<File>, a: File)
    requires Finished(files, order) && a in order
    ensures !Faulty(files, a)
    ensures forall x :: Reaches(files, a, x) ==> x in order
  {
    forall x | Reaches(files, a, x) ensures x in order && Good(files, x) && !Precedes(files, x, x) {
      var p :| Path(files, p) && p[0] == a && p[|p| - 1] == x;
      var i :| 0 <= i < |order| && order[i] == a;
      PathGoesBack(files, order, i, p);
      var k :| 0 <= k < |order| && order[k] == x;
      NoWayBack(files, order, k);
    }
  }

  lemma NoWayBack(files: Files, order: seq<File>, k: nat)
    requires Finished(files, order) && k < |order|
    ensures !Precedes(files, order[k], order[k])
  {
    forall c | Edge(files, order[k], c) ensures !Reaches(files, c, order[k]) {
      var j :| 0 <= j < k && order[..k][j] == c;
      forall p | Path(files, p) && p[0] == c ensures p[|p| - 1] != order[k] {
        PathGoesBack(files, order, j, p);
      }
    }
  }

  lemma FinishOne(files: Files, order: seq<File>, a: File)
    requires Finished(files, order) && Good(files, a) && a !in order
    requires forall b :: Edge(files, a, b) ==> b in order
    ensures Finished(files, order + [a])
  {
    var next := order + [a];
    forall i, b | 0 <= i < |next| && Edge(files, next[i], b) ensures b in next[..i] {
      if i < |order| {
        assert b in order[..i] && next[..i] == order[..i];
      } else {
        assert next[..i] == order;
      }
    }
  }

  // ---- the walk ----

  class Walker {
    const files: Files
    var visiting: set<File>
    var visited: set<File>
    /** The visited files in the order they were finished. */
    ghost var order: seq<File>

    ghost predicate Valid()
      reads this
    {
      && Finished(files, order)
      && (forall x :: x in visited ==> x !in visiting)
      && (forall x :: x in visited <==> x in order)
    }

    constructor (files: Files)
      ensures Valid() && this.files == files && visiting == {} && visited == {} && order == []
    {
      this.files, visiting, visited, order := files, {}, {}, [];
    }

    /** visitReferenceFile; the files being visited are those the walk came through. */
    method Visit(path: File) returns (ok: bool)
      requires Valid() && forall v :: v in visiting ==> Precedes(files, v, path)
      modifies this
      ensures visiting == old(visiting)
      ensures !ok ==> Faulty(files, path)
      ensures ok ==> Valid() && path in visited && old(order) <= order
      ensures ok ==> forall x :: x in visited ==> x in old(visited) || Reaches(files, path, x)
      decreases files.Keys - visiting, 0
    {
      ReachesSelf(files, path);
      if path in visiting { return false; }
      if path in visited { return true; }
      if path !in files || files[path].Unusable? { return false; }
      visiting := visiting + {path};
      ok := VisitAll(path);
      assert ok ==> path !in visited;
      visiting := visiting - {path};
      if ok {
        FinishOne(files, order, path);
        visited := visited + {path};
        order := order + [path];
      }
    }

    /** The loop over the references of `path`, which is being visited. */
    method VisitAll(path: File) returns (ok: bool)
      requires Valid() && path in files && files[path].Document? && path in visiting
      requires forall v :: v in visiting && v != path ==> Precedes(files, v, path)
      modifies this
      ensures visiting == old(visiting)
      ensures !ok ==> Faulty(files, path)
      ensures ok ==> Valid() && Good(files, path) && old(order) <= order
      ensures ok ==> forall b :: Edge(files, path, b) ==> b in order
      ensures ok ==> forall x :: x in visited ==> x in old(visited) || Reaches(files, path, x)
      decreases files.Keys - visiting, 2
    {
      var references := files[path].references;
      var i := 0;
      while i < |references|
        invariant 0 <= i <= |references|
        invariant Valid() && visiting == old(visiting) && old(order) <= order
        invariant forall k :: 0 <= k < i ==> references[k] != Refused
        invariant forall k :: 0 <= k < i && references[k].To? ==> references[k].file in order
        invariant forall x :: x in visited ==> x in old(visited) || Reaches(files, path, x)
        decreases |references| - i
      {
        if references[i].Refused? {
          ReachesSelf(files, path);
          return false;
        }
        if references[i].To? {
          ok := Follow(path, references[i].file);
          if !ok { return false; }
        }
        i := i + 1;
      }
      return true;
    }

    method Follow(path: File, file: File) returns (ok: bool)
      requires Valid() && Edge(files, path, file) && path in visiting
      requires forall v :: v in visiting && v != path ==> Precedes(files, v, path)
      modifies this
      ensures visiting == old(visiting)
      ensures !ok ==> Faulty(files, path)
      ensures ok ==> Valid() && file in order && old(order) <= order
      ensures ok ==> forall x :: x in visited ==> x in old(visited) || Reaches(files, path, x)
      decreases files.Keys - visiting, 1
    {
      ReachesSelf(files, file);
      forall v | v in visiting ensures Precedes(files, v, file) {
        if v != path {
          var c :| Edge(files, v, c) && Reaches(files, c, path);
          ReachesThen(files, c, path, file);
        }
      }
      ok := Visit(file);
      if !ok {
        FaultySpreads(files, path, file);
      } else {
        forall x | x in visited && x !in old(visited) ensures Reaches(files, path, x) {
          ReachesBy(files, path, file, x);
        }
      }
    }
  }

  /** validateReferenceTree: the walk succeeds exactly when everything reachable from the
      root is usable and nothing reachable refers back to itself, and then it has visited
      exactly the reachable files. */
  method Validate(files: Files, root: File) returns (ok: bool, visited: set<File>)
    ensures ok <==> !Faulty(files, root)
    ensures ok ==> forall x :: x in visited <==> Reaches(files, root, x)
  {
    var walker := new Walker(files);
    ok := walker.Visit(root);
    visited := walker.visited;
    if ok { FinishedIsSound(files, walker.order, root); }
  }
}
