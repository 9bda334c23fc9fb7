// YAML trees and the in-place merge of src-tauri/src/config.rs.
module Yaml {
  import opened Basics

  /** Numbers as the YAML library distinguishes them; a float is never read as an integer. */
  datatype Number = Integer(i: int) | Float(bits: nat)

  datatype Value =
    | Null
    | Bool(b: bool)
    | Num(number: Number)
    | Str(text: string)
    | Sequence(items: seq<Value>)
    | Mapping(entries: map<Value, Value>)

  const EMPTY := Mapping(map[])

  function Key(name: string): Value {
    Str(name)
  }

  /** The entry of a mapping under any key. */
  function At(value: Value, key: Value): Option<Value> {
    if value.Mapping? && key in value.entries then Some(value.entries[key]) else None
  }

  /** The entry of a mapping under a string key. */
  function Field(value: Value, name: string): Option<Value> {
    if value.Mapping? && Key(name) in value.entries then Some(value.entries[Key(name)]) else None
  }

  // ---------- merge ----------

  function Merge(base: Value, overlay: Value): Value
    decreases overlay
  {
    if base.Mapping? && overlay.Mapping? then
      Mapping(map k | k in base.entries.Keys + overlay.entries.Keys ::
                if k !in overlay.entries then base.entries[k]
                else if k !in base.entries then overlay.entries[k]
                else Merge(base.entries[k], overlay.entries[k]))
    else overlay
  }

  /** What the mapping being updated holds once the overlay keys in `done` have been visited. */
  ghost predicate Overlaid(base: map<Value, Value>, overlay: map<Value, Value>, done: set<Value>,
                           current: map<Value, Value>)
    requires done <= overlay.Keys
  {
    && current.Keys == base.Keys + done
    && (forall k | k in done :: current[k] == if k in base then Merge(base[k], overlay[k]) else overlay[k])
    && (forall k | k in base && k !in done :: current[k] == base[k])
  }

  /** The loop of the original, visiting the overlay's keys in any order. */
  method MergeValues(base: Value, overlay: Value) returns (merged: Value)
    ensures merged == Merge(base, overlay)
    decreases overlay
  {
    merged := overlay;
    if base.Mapping? && overlay.Mapping? {
      var current := base.entries;
      var done: set<Value> := {};
      while done != overlay.entries.Keys
        invariant done <= overlay.entries.Keys
        invariant Overlaid(base.entries, overlay.entries, done, current)
        decreases overlay.entries.Keys - done
      {
        var key :| key in overlay.entries && key !in done;
        var value := overlay.entries[key];
        if key in current {
          value := MergeValues(current[key], value);
        }
        current := current[key := value];
        done := done + {key};
      }
      merged := Mapping(current);
    }
  }

  // ---------- path-wise specification ----------

  type Path = seq<Value>

  /** What a reader finds at a path: nothing, a mapping, or a leaf. */
  datatype Sight = Absent | Branch | Leaf(leaf: Value)

  function Look(value: Value, path: Path): Sight
    decreases |path|
  {
    if path == [] then (if value.Mapping? then Branch else Leaf(value))
    else if value.Mapping? && path[0] in value.entries then Look(value.entries[path[0]], path[1..])
    else Absent
  }

  /** Some proper prefix of the path ends at a leaf. */
  predicate BelowLeaf(value: Value, path: Path)
    decreases |path|
  {
    path != [] &&
    (!value.Mapping? || (path[0] in value.entries && BelowLeaf(value.entries[path[0]], path[1..])))
  }

  /** The merge, stated path by path without building a tree. */
  function MergedSight(base: Value, overlay: Value, path: Path): Sight {
    var over := Look(overlay, path);
    if over != Absent then over
    else if BelowLeaf(overlay, path) then Absent
    else Look(base, path)
  }

  lemma {:induction false} MergePathwise(base: Value, overlay: Value, path: Path)
    ensures Look(Merge(base, overlay), path) == MergedSight(base, overlay, path)
    decreases |path|
  {
    if path != [] && base.Mapping? && overlay.Mapping? {
      var k := path[0];
      if k in base.entries && k in overlay.entries {
        MergePathwise(base.entries[k], overlay.entries[k], path[1..]);
      }
      if k !in base.entries && k in overlay.entries {
        assert Look(Merge(base, overlay), path) == Look(overlay, path);
      }
    }
  }

  lemma {:induction false} SightsDetermine(a: Value, b: Value)
    requires forall path :: Look(a, path) == Look(b, path)
    ensures a == b
    decreases a
  {
    assert Look(a, []) == Look(b, []);
    if a.Mapping? {
      forall k | k in a.entries.Keys + b.entries.Keys
        ensures k in a.entries && k in b.entries && a.entries[k] == b.entries[k]
      {
        assert Look(a, [k]) == Look(b, [k]);
        forall path
          ensures Look(a.entries[k], path) == Look(b.entries[k], path)
        {
          assert ([k] + path)[1..] == path;
          assert Look(a, [k] + path) == Look(b, [k] + path);
        }
        SightsDetermine(a.entries[k], b.entries[k]);
      }
      assert a.entries.Keys == b.entries.Keys;
    }
  }

  /** The path-wise description holds of the merged tree and of no other tree. */
  lemma MergeIsThePathwiseTree(base: Value, overlay: Value, result: Value)
    ensures (forall path :: Look(result, path) == MergedSight(base, overlay, path))
            <==> result == Merge(base, overlay)
  {
    forall path
      ensures Look(Merge(base, overlay), path) == MergedSight(base, overlay, path)
    {
      MergePathwise(base, overlay, path);
    }
    if forall path :: Look(result, path) == MergedSight(base, overlay, path) {
      SightsDetermine(result, Merge(base, overlay));
    }
  }

  // ---------- algebra ----------

  lemma {:induction false} MergeSelf(value: Value)
    ensures Merge(value, value) == value
    decreases value
  {
    if value.Mapping? {
      forall k | k in value.entries
        ensures Merge(value.entries[k], value.entries[k]) == value.entries[k]
      {
        MergeSelf(value.entries[k]);
      }
      assert Merge(value, value).entries == value.entries;
    }
  }

  lemma {:induction false} MergeIdempotent(base: Value, overlay: Value)
    ensures Merge(Merge(base, overlay), overlay) == Merge(base, overlay)
    decreases overlay
  {
    if base.Mapping? && overlay.Mapping? {
      var once := Merge(base, overlay);
      forall k | k in overlay.entries
        ensures Merge(once.entries[k], overlay.entries[k]) == once.entries[k]
      {
        if k in base.entries {
          MergeIdempotent(base.entries[k], overlay.entries[k]);
        } else {
          MergeSelf(overlay.entries[k]);
        }
      }
      assert Merge(once, overlay).entries == once.entries;
    } else {
      MergeSelf(overlay);
    }
  }

  /** The overlay replaces everything the base holds: every base path leads to an overlay path. */
  predicate Covered(base: Value, overlay: Value)
    decreases base
  {
    base.Mapping? && overlay.Mapping? ==>
      base.entries.Keys <= overlay.entries.Keys &&
      forall k | k in base.entries :: Covered(base.entries[k], overlay.entries[k])
  }

  lemma {:induction false} CoveredExactly(base: Value, overlay: Value)
    ensures Covered(base, overlay) <==> Merge(base, overlay) == overlay
    decreases base
  {
    if base.Mapping? && overlay.Mapping? {
      forall k | k in base.entries && k in overlay.entries
        ensures Covered(base.entries[k], overlay.entries[k])
                <==> Merge(base.entries[k], overlay.entries[k]) == overlay.entries[k]
      {
        CoveredExactly(base.entries[k], overlay.entries[k]);
      }
      var merged := Merge(base, overlay);
      if Covered(base, overlay) {
        assert merged.entries == overlay.entries;
      }
      if merged == overlay {
        assert base.entries.Keys <= merged.entries.Keys;
        forall k | k in base.entries
          ensures Covered(base.entries[k], overlay.entries[k])
        {
          assert merged.entries[k] == overlay.entries[k];
        }
      }
    }
  }

  /** The middle layer is a mapping wherever the layers around it both are, or the bottom layer is
      covered by the top one there. */
  predicate Regroupable(a: Value, b: Value, c: Value)
    decreases c
  {
    a.Mapping? && c.Mapping? ==>
      if b.Mapping? then
        forall k | k in c.entries && k in a.entries && k in b.entries ::
          Regroupable(a.entries[k], b.entries[k], c.entries[k])
      else Covered(a, c)
  }

  /** Exactly when three layers may be merged in either grouping. */
  lemma {:induction false} MergeAssociativeExactly(a: Value, b: Value, c: Value)
    ensures Merge(Merge(a, b), c) == Merge(a, Merge(b, c)) <==> Regroupable(a, b, c)
    decreases c
  {
    if a.Mapping? && c.Mapping? {
      if b.Mapping? {
        var left, right := Merge(Merge(a, b), c), Merge(a, Merge(b, c));
        assert left.entries.Keys == right.entries.Keys;
        forall k | k in left.entries
          ensures left.entries[k] == right.entries[k]
                  <==> (k in a.entries && k in b.entries && k in c.entries ==>
                          Regroupable(a.entries[k], b.entries[k], c.entries[k]))
        {
          if k in a.entries && k in b.entries && k in c.entries {
            MergeAssociativeExactly(a.entries[k], b.entries[k], c.entries[k]);
          }
        }
        if Regroupable(a, b, c) {
          assert left.entries == right.entries;
        }
        if left == right {
          forall k | k in c.entries && k in a.entries && k in b.entries
            ensures Regroupable(a.entries[k], b.entries[k], c.entries[k])
          {
            assert left.entries[k] == right.entries[k];
          }
        }
      } else {
        CoveredExactly(a, c);
      }
    } else if c.Mapping? && b.Mapping? {
      assert Merge(a, Merge(b, c)) == Merge(b, c);
    }
  }

  /** A condition readable off the paths: where the top layer branches, the middle one branches or is silent. */
  lemma {:induction false} BranchingMiddleSuffices(a: Value, b: Value, c: Value)
    requires forall path :: Look(b, path) != Absent && Look(c, path) == Branch ==> Look(b, path) == Branch
    ensures Merge(Merge(a, b), c) == Merge(a, Merge(b, c))
  {
    BranchingMiddleRegroups(a, b, c);
    MergeAssociativeExactly(a, b, c);
  }

  lemma {:induction false} BranchingMiddleRegroups(a: Value, b: Value, c: Value)
    requires forall path :: Look(b, path) != Absent && Look(c, path) == Branch ==> Look(b, path) == Branch
    ensures Regroupable(a, b, c)
    decreases c
  {
    if a.Mapping? && c.Mapping? {
      assert Look(b, []) == Branch;
      forall k | k in c.entries && k in a.entries && k in b.entries
        ensures Regroupable(a.entries[k], b.entries[k], c.entries[k])
      {
        forall path | Look(b.entries[k], path) != Absent && Look(c.entries[k], path) == Branch
          ensures Look(b.entries[k], path) == Branch
        {
          assert ([k] + path)[1..] == path;
          assert Look(b, [k] + path) == Look(b.entries[k], path);
          assert Look(c, [k] + path) == Look(c.entries[k], path);
        }
        BranchingMiddleRegroups(a.entries[k], b.entries[k], c.entries[k]);
      }
    }
  }

  /** The grouping matters: a scalar middle layer erases the bottom one only when it is merged first. */
  lemma GroupingMatters()
    ensures var a := Mapping(map[Key("k") := Mapping(map[Key("x") := Num(Integer(1))])]);
            var b := Mapping(map[Key("k") := Num(Integer(5))]);
            var c := Mapping(map[Key("k") := Mapping(map[Key("y") := Num(Integer(2))])]);
            Merge(Merge(a, b), c) != Merge(a, Merge(b, c))
  {
    var inA := Mapping(map[Key("x") := Num(Integer(1))]);
    var inB := Num(Integer(5));
    var inC := Mapping(map[Key("y") := Num(Integer(2))]);
    var a, b, c := Mapping(map[Key("k") := inA]), Mapping(map[Key("k") := inB]), Mapping(map[Key("k") := inC]);
    assert Key("x") in inA.entries && Key("x") !in inC.entries;
    assert !Covered(inA, inC);
    assert !Regroupable(inA, inB, inC);
    assert !Regroupable(a, b, c) by {
      assert Key("k") in c.entries && Key("k") in a.entries && Key("k") in b.entries;
      assert a.entries[Key("k")] == inA && b.entries[Key("k")] == inB && c.entries[Key("k")] == inC;
    }
    MergeAssociativeExactly(a, b, c);
  }
}
