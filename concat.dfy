/** The three helpers of lib/index.js: `concatArr` (explicit list of paths),
    `concatObj` (glob over the keys) and `addMetadata`. Each is a method that
    changes the live file map step by step, proved against a function that
    gives its result and the map's new value. */
module Concat {
  import opened JsValues
  import opened FileMaps

  datatype Error =
    | MissingOutput
    | NotFound(path: string)
    | MetadataNotObject

  /** The message of the `Error` the source throws. */
  function Message(e: Error): string
  {
    match e
    case MissingOutput => "Missing `output` option"
    case NotFound(path) => path + " does not exist"
    case MetadataNotObject => "Concat metadata must be an object"
  }

  /** The message of a missing-path error names the path: two such messages are
      equal only for the same path. */
  lemma NotFoundMessageNamesPath(p: string, q: string)
    requires Message(NotFound(p)) == Message(NotFound(q))
    ensures p == q
  {
    var m := Message(NotFound(p));
    assert |p| == |q|;
    assert p == m[..|p|] == q;
  }

  datatype Result<T> = Success(value: T) | Failure(error: Error)

  /** What a step returns and the file map it leaves behind. */
  datatype Outcome<T> = Outcome(result: T, state: State)

  /** Normal completion (`done()`) or a thrown error. */
  datatype Status = Done | Failed(error: Error)

  /** `minimatch(path, pattern)`: the glob library, taken as given. */
  type Matcher = (string, string) -> bool

  predicate AllPresent(paths: seq<string>, files: map<string, Record>)
  {
    forall p :: p in paths ==> p in files
  }

  /** The contents of the records at `paths`, in that order, with no separator. */
  function JoinContents(paths: seq<string>, files: map<string, Record>): string
    requires AllPresent(paths, files)
  {
    if paths == [] then "" else ContentsOf(files[paths[0]]) + JoinContents(paths[1..], files)
  }

  lemma {:induction false} JoinContentsAppend(paths: seq<string>, p: string, files: map<string, Record>)
    requires AllPresent(paths + [p], files)
    ensures AllPresent(paths, files)
    ensures JoinContents(paths + [p], files) == JoinContents(paths, files) + ContentsOf(files[p])
  {
    if paths != [] {
      assert (paths + [p])[1..] == paths[1..] + [p];
      JoinContentsAppend(paths[1..], p, files);
    }
  }

  /** Only the records at `paths` matter to their joined contents. */
  lemma {:induction false} JoinContentsAgree(paths: seq<string>, f: map<string, Record>, g: map<string, Record>)
    requires AllPresent(paths, f)
    requires forall p :: p in paths ==> p in g && g[p] == f[p]
    ensures AllPresent(paths, g)
    ensures JoinContents(paths, f) == JoinContents(paths, g)
  {
    if paths != [] {
      JoinContentsAgree(paths[1..], f, g);
    }
  }

  // ----- concatArr -------------------------------------------------------------

  /** `concatArr` step by step: each path in turn must be present (else the
      error names it and the loop stops with the map as it is), its contents are
      appended, and unless `keep` it is deleted before the next path is looked up. */
  function ListConcat(paths: seq<string>, s: State, keep: bool): Outcome<Result<string>>
  {
    if paths == [] then Outcome(Success(""), s)
    else if paths[0] !in s.files then Outcome(Failure(NotFound(paths[0])), s)
    else
      var rest := ListConcat(paths[1..], Consume(s, paths[0], keep), keep);
      Outcome(Prefixed(ContentsOf(s.files[paths[0]]), rest.result), rest.state)
  }

  /** The map after one path is consumed. */
  function Consume(s: State, p: string, keep: bool): State
  {
    if keep then s else RemoveKeys(s, {p})
  }

  function Prefixed(acc: string, r: Result<string>): Result<string>
  {
    if r.Success? then Success(acc + r.value) else r
  }

  /** The condition under which `concatArr` finds every path it looks up. */
  predicate ListConsumable(paths: seq<string>, files: map<string, Record>, keep: bool)
  {
    AllPresent(paths, files) && (keep || Distinct(paths))
  }

  /** A consumable list stays consumable, and sees the same records, after its
      first path is consumed. */
  lemma ConsumableTail(paths: seq<string>, s: State, keep: bool)
    requires paths != [] && ListConsumable(paths, s.files, keep)
    ensures ListConsumable(paths[1..], Consume(s, paths[0], keep).files, keep)
    ensures forall q :: q in paths[1..] ==> Consume(s, paths[0], keep).files[q] == s.files[q]
  {
    var next := Consume(s, paths[0], keep);
    forall q | q in paths[1..] ensures q in next.files {
      var i :| 0 <= i < |paths[1..]| && paths[1..][i] == q;
      assert paths[i + 1] == q;
    }
    if !keep {
      forall a, b | 0 <= a < b < |paths[1..]| ensures paths[1..][a] != paths[1..][b] {
        assert paths[a + 1] != paths[b + 1];
      }
    }
  }

  /** Conversely, a list whose first path is present and whose rest is consumable
      after that path is consumed, is consumable. */
  lemma ConsumableCons(paths: seq<string>, s: State, keep: bool)
    requires paths != [] && paths[0] in s.files
    requires ListConsumable(paths[1..], Consume(s, paths[0], keep).files, keep)
    ensures ListConsumable(paths, s.files, keep)
  {
    var p := paths[0];
    forall q | q in paths ensures q in s.files {
      if q != p {
        var i :| 0 <= i < |paths| && paths[i] == q;
        assert paths[1..][i - 1] == q;
        assert q in Consume(s, p, keep).files;
      }
    }
    if !keep {
      forall a, b | 0 <= a < b < |paths| ensures paths[a] != paths[b] {
        assert paths[b] == paths[1..][b - 1];
        if a > 0 { assert paths[a] == paths[1..][a - 1]; }
      }
    }
  }

  /** When every path is found, the result is the contents of all of them in list
      order, and the map loses exactly the listed keys (none when `keep`). */
  lemma {:induction false} ListConcatSucceeds(paths: seq<string>, s: State, keep: bool)
    requires ListConsumable(paths, s.files, keep)
    ensures ListConcat(paths, s, keep)
         == Outcome(Success(JoinContents(paths, s.files)), if keep then s else RemoveKeys(s, Elems(paths)))
  {
    if paths == [] {
      assert Elems(paths) == {};
      RemoveNoKeys(s);
    } else {
      var p := paths[0];
      var next := Consume(s, p, keep);
      ConsumableTail(paths, s, keep);
      ListConcatSucceeds(paths[1..], next, keep);
      JoinContentsAgree(paths[1..], s.files, next.files);
      if !keep {
        RemoveKeysTwice(s, {p}, Elems(paths[1..]));
        assert {p} + Elems(paths[1..]) == Elems(paths);
      }
    }
  }

  /** The path at `j` is the first one not found: either it is absent from the
      map, or (unless `keep`) it was listed before and so already deleted. Then
      the error names it, the output is not produced, and the paths before `j`
      stay deleted: there is no rollback. */
  lemma {:induction false} ListConcatFailsAt(paths: seq<string>, s: State, keep: bool, j: nat)
    requires j < |paths|
    requires ListConsumable(paths[..j], s.files, keep)
    requires paths[j] !in s.files || (!keep && paths[j] in paths[..j])
    ensures ListConcat(paths, s, keep)
         == Outcome(Failure(NotFound(paths[j])), if keep then s else RemoveKeys(s, Elems(paths[..j])))
  {
    if j == 0 {
      assert Elems(paths[..0]) == {};
      RemoveNoKeys(s);
    } else {
      var p := paths[0];
      var next := Consume(s, p, keep);
      var tail := paths[1..];
      assert paths[..j][0] == p;
      assert paths[..j][1..] == tail[..j - 1];
      ConsumableTail(paths[..j], s, keep);
      assert tail[j - 1] == paths[j];
      assert tail[j - 1] !in next.files || (!keep && tail[j - 1] in tail[..j - 1]) by {
        if !keep && paths[j] in paths[..j] && paths[j] != p {
          var i :| 0 <= i < j && paths[..j][i] == paths[j];
          assert tail[..j - 1][i - 1] == paths[j];
        }
      }
      ListConcatFailsAt(tail, next, keep, j - 1);
      if !keep {
        RemoveKeysTwice(s, {p}, Elems(tail[..j - 1]));
        assert paths[..j] == [p] + tail[..j - 1];
        assert {p} + Elems(tail[..j - 1]) == Elems(paths[..j]);
      }
    }
  }

  /** `concatArr` returns normally exactly when every path is found: all are
      present, and without `keep` none is listed twice. */
  lemma {:induction false} ListConcatSuccessIff(paths: seq<string>, s: State, keep: bool)
    ensures ListConcat(paths, s, keep).result.Success? <==> ListConsumable(paths, s.files, keep)
  {
    if ListConsumable(paths, s.files, keep) {
      ListConcatSucceeds(paths, s, keep);
    } else if paths[0] in s.files {
      ListConcatSuccessIff(paths[1..], Consume(s, paths[0], keep), keep);
      if ListConsumable(paths[1..], Consume(s, paths[0], keep).files, keep) {
        ConsumableCons(paths, s, keep);
      }
    }
  }

  /** Without `keep`, a path listed twice fails on its second occurrence. */
  lemma DuplicateFails(paths: seq<string>, s: State, i: nat, j: nat)
    requires i < j < |paths| && paths[i] == paths[j]
    ensures ListConcat(paths, s, false).result.Failure?
  {
    ListConcatSuccessIff(paths, s, false);
  }

  /** `concatArr`: appends the contents of each listed path, deleting each
      consumed entry unless `keep`, and throws when a path is not found. */
  method ConcatArr(paths: seq<string>, fm: FileMap, keep: bool) returns (r: Result<string>)
    requires fm.Valid()
    modifies fm
    ensures fm.Valid()
    ensures Outcome(r, fm.Snapshot()) == ListConcat(paths, old(fm.Snapshot()), keep)
  {
    ghost var whole := ListConcat(paths, fm.Snapshot(), keep);
    var concatenated := "";
    var i := 0;
    PrefixedNothing(whole.result);
    assert paths[0..] == paths;
    assert Tracks(whole, paths[0..], fm.Snapshot(), keep, concatenated);
    while i < |paths|
      invariant 0 <= i <= |paths|
      invariant fm.Valid()
      invariant Tracks(whole, paths[i..], fm.Snapshot(), keep, concatenated)
    {
      var filename := paths[i];
      if filename !in fm.files {
        ListStop(paths, i, fm.Snapshot(), keep, concatenated, whole);
        return Failure(NotFound(filename));
      }
      ghost var next := Consume(fm.Snapshot(), filename, keep);
      ListStep(paths, i, fm.Snapshot(), keep, concatenated, whole);
      concatenated := concatenated + ContentsOf(fm.files[filename]);
      if !keep {
        fm.Delete(filename);
      }
      assert fm.Snapshot() == next;
      i := i + 1;
    }
    assert paths[|paths|..] == [];
    assert concatenated + "" == concatenated;
    r := Success(concatenated);
  }

  /** `whole` is what `ListConcat` gives for the whole list when `acc` has been
      gathered so far and `rest` remains to be read from `s`. */
  ghost predicate Tracks(whole: Outcome<Result<string>>, rest: seq<string>, s: State, keep: bool, acc: string)
  {
    var tail := ListConcat(rest, s, keep);
    whole.state == tail.state && whole.result == Prefixed(acc, tail.result)
  }

  /** One unfolding of `ListConcat` at position `i` of the list. */
  lemma ListConcatAt(paths: seq<string>, i: nat, s: State, keep: bool)
    requires i < |paths|
    ensures ListConcat(paths[i..], s, keep)
         == if paths[i] !in s.files then Outcome(Failure(NotFound(paths[i])), s)
            else
              var rest := ListConcat(paths[i + 1..], Consume(s, paths[i], keep), keep);
              Outcome(Prefixed(ContentsOf(s.files[paths[i]]), rest.result), rest.state)
  {
    assert paths[i..][0] == paths[i] && paths[i..][1..] == paths[i + 1..];
  }

  /** The loop of `ConcatArr` stops at a path that is not found. */
  lemma ListStop(paths: seq<string>, i: nat, s: State, keep: bool, acc: string, whole: Outcome<Result<string>>)
    requires i < |paths| && paths[i] !in s.files
    requires Tracks(whole, paths[i..], s, keep, acc)
    ensures whole == Outcome(Failure(NotFound(paths[i])), s)
  {
    ListConcatAt(paths, i, s, keep);
  }

  /** One turn of the loop of `ConcatArr` on a path that is found. */
  lemma ListStep(paths: seq<string>, i: nat, s: State, keep: bool, acc: string, whole: Outcome<Result<string>>)
    requires i < |paths| && paths[i] in s.files
    requires Tracks(whole, paths[i..], s, keep, acc)
    ensures Tracks(whole, paths[i + 1..], Consume(s, paths[i], keep), keep, acc + ContentsOf(s.files[paths[i]]))
  {
    ListConcatAt(paths, i, s, keep);
    var rest := ListConcat(paths[i + 1..], Consume(s, paths[i], keep), keep);
    PrefixedTwice(acc, ContentsOf(s.files[paths[i]]), rest.result);
  }

  lemma PrefixedNothing(r: Result<string>)
    ensures Prefixed("", r) == r
  {
    if r.Success? {
      assert "" + r.value == r.value;
    }
  }

  lemma PrefixedTwice(a: string, b: string, r: Result<string>)
    ensures Prefixed(a, Prefixed(b, r)) == Prefixed(a + b, r)
  {
    if r.Success? {
      assert a + (b + r.value) == (a + b) + r.value;
    }
  }

  // ----- concatObj -------------------------------------------------------------

  /** The keys, in order, that the pattern matches. */
  function Filter(keys: seq<string>, pattern: string, matches: Matcher): (r: seq<string>)
    ensures forall k :: k in r <==> k in keys && matches(k, pattern)
  {
    if keys == [] then []
    else
      var n := |keys| - 1;
      assert keys == keys[..n] + [keys[n]];
      Filter(keys[..n], pattern, matches) + (if matches(keys[n], pattern) then [keys[n]] else [])
  }

  lemma FilterStep(keys: seq<string>, i: nat, pattern: string, matches: Matcher)
    requires i < |keys|
    ensures Filter(keys[..i + 1], pattern, matches)
         == Filter(keys[..i], pattern, matches) + (if matches(keys[i], pattern) then [keys[i]] else [])
  {
    assert keys[..i + 1][..i] == keys[..i];
  }

  lemma NotYetVisited(keys: seq<string>, i: nat)
    requires i < |keys| && Distinct(keys)
    ensures keys[i] !in keys[..i]
  {
  }

  /** `concatObj` in closed form: the contents of the matching keys of the map
      as it was on entry, in enumeration order, and (unless `keep`) the map
      without exactly those keys. */
  function GlobConcat(pattern: string, s: State, keep: bool, matches: Matcher): Outcome<string>
    requires WellFormed(s)
  {
    var selected := Filter(s.order, pattern, matches);
    Outcome(JoinContents(selected, s.files), if keep then s else RemoveKeys(s, Elems(selected)))
  }

  /** The first `i` visits of `concatObj`: the keys among the first `i` of the
      snapshot that match, their contents joined, and (unless `keep`) the map
      without them. */
  ghost function GlobPrefix(s0: State, i: nat, pattern: string, keep: bool, matches: Matcher): Outcome<string>
    requires WellFormed(s0) && i <= |s0.order|
  {
    var done := Filter(s0.order[..i], pattern, matches);
    assert forall k :: k in s0.order[..i] ==> k in s0.order;
    Outcome(JoinContents(done, s0.files), if keep then s0 else RemoveKeys(s0, Elems(done)))
  }

  lemma GlobPrefixNone(s0: State, pattern: string, keep: bool, matches: Matcher)
    requires WellFormed(s0)
    ensures GlobPrefix(s0, 0, pattern, keep, matches) == Outcome("", s0)
  {
    assert s0.order[..0] == [] && Elems([]) == {};
    RemoveNoKeys(s0);
  }

  lemma GlobPrefixAll(s0: State, pattern: string, keep: bool, matches: Matcher)
    requires WellFormed(s0)
    ensures GlobPrefix(s0, |s0.order|, pattern, keep, matches) == GlobConcat(pattern, s0, keep, matches)
  {
    assert s0.order[..|s0.order|] == s0.order;
  }

  /** One visit of `concatObj`, to the key at `i` of the snapshot: that key is
      still in the map, holding the record it held on entry, and the visit
      appends its contents and consumes it exactly when it matches. */
  lemma GlobVisit(s0: State, i: nat, pattern: string, keep: bool, matches: Matcher)
    requires WellFormed(s0) && i < |s0.order|
    ensures WellFormed(GlobPrefix(s0, i, pattern, keep, matches).state)
    ensures s0.order[i] in GlobPrefix(s0, i, pattern, keep, matches).state.files
    ensures GlobPrefix(s0, i, pattern, keep, matches).state.files[s0.order[i]] == s0.files[s0.order[i]]
    ensures GlobPrefix(s0, i + 1, pattern, keep, matches)
         == var prev := GlobPrefix(s0, i, pattern, keep, matches);
            if matches(s0.order[i], pattern)
            then Outcome(prev.result + ContentsOf(s0.files[s0.order[i]]), Consume(prev.state, s0.order[i], keep))
            else prev
  {
    var k := s0.order[i];
    var done := Filter(s0.order[..i], pattern, matches);
    RemoveKeysWellFormed(s0, Elems(done));
    FilterStep(s0.order, i, pattern, matches);
    NotYetVisited(s0.order, i);
    assert k !in Elems(done);
    assert AllPresent(done, s0.files) by {
      forall x | x in done ensures x in s0.files {
        assert x in s0.order[..i];
        SliceMember(s0.order, i, x);
      }
    }
    var prev := GlobPrefix(s0, i, pattern, keep, matches);
    assert prev == Outcome(JoinContents(done, s0.files), if keep then s0 else RemoveKeys(s0, Elems(done)));
    var after := Filter(s0.order[..i + 1], pattern, matches);
    assert AllPresent(after, s0.files);
    assert GlobPrefix(s0, i + 1, pattern, keep, matches)
        == Outcome(JoinContents(after, s0.files), if keep then s0 else RemoveKeys(s0, Elems(after)));
    if matches(k, pattern) {
      assert after == done + [k];
      JoinContentsAppend(done, k, s0.files);
      if !keep {
        RemoveKeysTwice(s0, Elems(done), {k});
        ElemsAppend(done, k);
      }
    } else {
      assert after == done;
    }
  }

  lemma SliceMember(s: seq<string>, i: nat, x: string)
    requires i <= |s| && x in s[..i]
    ensures x in s
  {
  }

  /** `concatObj`: walks a snapshot of the keys taken on entry, so the deletions
      it makes do not change which keys are visited. */
  method ConcatObj(pattern: string, fm: FileMap, keep: bool, matches: Matcher) returns (concatenated: string)
    requires fm.Valid()
    modifies fm
    ensures fm.Valid()
    ensures Outcome(concatenated, fm.Snapshot()) == GlobConcat(pattern, old(fm.Snapshot()), keep, matches)
  {
    ghost var s0 := fm.Snapshot();
    var keys := fm.order;
    concatenated := "";
    var i := 0;
    GlobPrefixNone(s0, pattern, keep, matches);
    while i < |keys|
      invariant 0 <= i <= |keys| && keys == s0.order
      invariant fm.Valid()
      invariant Outcome(concatenated, fm.Snapshot()) == GlobPrefix(s0, i, pattern, keep, matches)
    {
      var filename := keys[i];
      var matched := matches(filename, pattern);
      GlobVisit(s0, i, pattern, keep, matches);
      if matched {
        concatenated := concatenated + ContentsOf(fm.files[filename]);
        if !keep {
          fm.Delete(filename);
        }
      }
      i := i + 1;
    }
    GlobPrefixAll(s0, pattern, keep, matches);
  }

  // ----- addMetadata -----------------------------------------------------------

  /** The output record after `addMetadata`: every property of an object (or
      array) `metadata` written over the record's fields, `contents` included;
      for any other `metadata` the record as it was. */
  function Stamped(metadata: Value, r: Record): (t: Record)
    ensures !Truthy(metadata) || TypeOf(metadata) != "object" ==> t == r
    ensures Truthy(metadata) && TypeOf(metadata) == "object" ==>
              t.Keys == r.Keys + OwnProperties(metadata).Keys
              && (forall k :: k in OwnProperties(metadata) ==> t[k] == OwnProperties(metadata)[k])
              && (forall k :: k in r && k !in OwnProperties(metadata) ==> t[k] == r[k])
  {
    if Truthy(metadata) && TypeOf(metadata) == "object" then r + OwnProperties(metadata) else r
  }

  /** `addMetadata` on the map: nothing for a falsy `metadata`, an error (with the
      map left as it is) for one that is not an object, and otherwise the output
      record stamped, no other entry touched. */
  function WithMetadata(metadata: Value, output: string, s: State): (r: Outcome<Status>)
    requires output in s.files
    ensures r.result == if Truthy(metadata) && TypeOf(metadata) != "object" then Failed(MetadataNotObject) else Done
    ensures r.state.order == s.order && r.state.files.Keys == s.files.Keys
    ensures r.state.files[output] == Stamped(metadata, s.files[output])
    ensures forall k :: k in s.files && k != output ==> r.state.files[k] == s.files[k]
  {
    if !Truthy(metadata) then Outcome(Done, s)
    else if TypeOf(metadata) != "object" then Outcome(Failed(MetadataNotObject), s)
    else Outcome(Done, State(s.files[output := Stamped(metadata, s.files[output])], s.order))
  }

  /** `addMetadata`: copies the metadata's properties one by one onto the record
      stored at `output`. */
  method AddMetadata(metadata: Value, output: string, fm: FileMap) returns (status: Status)
    requires fm.Valid() && output in fm.files
    modifies fm
    ensures fm.Valid()
    ensures Outcome(status, fm.Snapshot()) == WithMetadata(metadata, output, old(fm.Snapshot()))
  {
    if !Truthy(metadata) {
      return Done;
    }
    if TypeOf(metadata) != "object" {
      return Failed(MetadataNotObject);
    }
    CopyProperties(OwnProperties(metadata), output, fm);
    status := Done;
  }

  /** The `forEach` of `addMetadata`: `concatFile[key] = metadata[key]` for each
      key of `props`, on the record stored at `output`; a key the record already
      has is overwritten. */
  method CopyProperties(props: map<string, Value>, output: string, fm: FileMap)
    requires fm.Valid() && output in fm.files
    modifies fm
    ensures fm.Valid()
    ensures fm.Snapshot() == State(old(fm.files)[output := old(fm.files)[output] + props], old(fm.order))
  {
    ghost var s0 := fm.Snapshot();
    var todo := props.Keys;
    ghost var copied: set<string> := {};
    CopiedNothing(s0.files[output], props);
    assert s0.files[output := s0.files[output]] == s0.files;
    while todo != {}
      invariant todo !! copied && todo + copied == props.Keys
      invariant fm.Valid() && fm.order == s0.order
      invariant fm.files == s0.files[output := Copied(s0.files[output], props, copied)]
      decreases todo
    {
      var key :| key in todo;
      CopiedOneMore(s0.files[output], props, copied, key);
      fm.SetField(output, key, props[key]);
      todo := todo - {key};
      copied := copied + {key};
    }
    CopiedAll(s0.files[output], props, copied);
  }

  /** The record with the properties in `keys` copied onto it. */
  function Copied(r: Record, props: map<string, Value>, keys: set<string>): Record
    requires keys <= props.Keys
  {
    r + map k | k in keys :: props[k]
  }

  lemma CopiedNothing(r: Record, props: map<string, Value>)
    ensures Copied(r, props, {}) == r
  {
  }

  lemma CopiedOneMore(r: Record, props: map<string, Value>, keys: set<string>, key: string)
    requires keys <= props.Keys && key in props
    ensures Copied(r, props, keys)[key := props[key]] == Copied(r, props, keys + {key})
  {
  }

  lemma CopiedAll(r: Record, props: map<string, Value>, keys: set<string>)
    requires keys == props.Keys
    ensures Copied(r, props, keys) == r + props
  {
    assert (map k | k in keys :: props[k]) == props;
  }
}
