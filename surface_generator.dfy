/**
 * surface_generator with the geometry engine and the file system left
 * outside: the Miller index is translated, the engine is asked for the
 * slabs of the translated index (only their number matters here), and
 * one output file name is produced per slab, in the engine's order.
 */
module SurfaceGenerator {
  import opened Wrappers
  import opened Miller
  import opened SlabNames

  /** The two ways the procedure stops before writing anything. */
  datatype Error =
    | MillerUnbound  // no family holds the index; the orthorhombic index is used unbound
    | NoSlabs        // the engine returned no slab; the first slab's lattice is read anyway

  /**
   * The loop over the slabs: slab i of the untranslated index is written
   * to the i-th name, for i from 0 to count - 1.
   */
  method NameSlabs(miller: Triple, count: nat) returns (names: seq<string>)
    ensures |names| == count
    ensures forall j :: 0 <= j < count ==> names[j] == SlabFileName(miller, j)
    ensures forall j :: 0 <= j < count ==> DecodeFileName(names[j]) == Some((miller, j))
    ensures forall j, k :: 0 <= j < k < count ==> names[j] != names[k]
  {
    names := [];
    var i := 0;
    while i < count
      invariant 0 <= i <= count
      invariant |names| == i
      invariant forall j :: 0 <= j < i ==> names[j] == SlabFileName(miller, j)
    {
      var name := SlabFileName(miller, i);
      names := names + [name];
      i := i + 1;
    }
    NameSequence(miller, names);
  }

  /**
   * Returns the names the loop writes to, one per slab, provided every
   * per-slab call (supercell, orthogonalisation, writing) succeeds.
   * slabCount stands for the engine: how many slabs it returns for an
   * orthorhombic Miller index.
   */
  method Generate(miller: Triple, slabCount: Triple -> nat) returns (r: Result<seq<string>, Error>)
    ensures r == Failure(MillerUnbound) <==> Translate(miller).None?
    ensures r == Failure(NoSlabs) <==> Translate(miller).Some? && slabCount(Translate(miller).value) == 0
    ensures r.Success? ==> Translate(miller).Some? && |r.value| == slabCount(Translate(miller).value)
    ensures r.Success? ==> forall j :: 0 <= j < |r.value| ==> r.value[j] == SlabFileName(miller, j)
    ensures r.Success? ==> forall j :: 0 <= j < |r.value| ==> DecodeFileName(r.value[j]) == Some((miller, j))
    ensures r.Success? ==> forall j, k :: 0 <= j < k < |r.value| ==> r.value[j] != r.value[k]
  {
    var translated := Translate(miller);
    if translated.None? {
      return Failure(MillerUnbound);
    }
    var mil := translated.value;
    var count := slabCount(mil);
    if count == 0 {
      return Failure(NoSlabs);
    }
    var names := NameSlabs(miller, count);
    return Success(names);
  }
}
