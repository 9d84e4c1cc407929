# Hematite slab generator: Miller-index translation and output names

`surface_generator` (in `surface_creator.py`) builds orthorhombic slabs of
hematite (Fe2O3). Its caller gives a plane as a rhombohedral Miller index
(h, k, l). The index is looked up in four hard-coded families of
symmetry-equivalent rhombohedral indices. Each family stands for one
orthorhombic index:

| family | accepted rhombohedral indices | orthorhombic index |
|---|---|---|
| (100) | (1,0,0) (0,1,0) (1,-1,0) (-1,0,0) (0,-1,0) (-1,1,0) | (1,1,0) |
| (001) | (0,0,1) (0,0,-1) | (0,0,1) |
| (110) | (1,1,0) (1,-2,0) (2,-1,0) (-1,-1,0) (-1,2,0) (-2,1,0) | (1,0,0) |
| (012) | (0,1,2) (1,-1,2) (-1,-1,2) (0,-2,-2) (-1,1,-2) (1,1,-2) | (0,2,2) |

The geometry engine gets the orthorhombic index and returns a list of
slabs. The procedure then writes one file per slab. Each file is named
`slab_(h, k, l)_i.cif`, with the untranslated index and the slab's
position i, counting from 0.

The model has four modules:

- `Wrappers` (`wrappers.dfy`): `Option` and `Result`.
- `Miller` (`miller.dfy`): the four lists exactly as written, the
  first-match chain `Translate`, and lemmas about it. `None` stands for
  the case where no branch is taken and the orthorhombic index stays unbound.
  The source then fails at its first use.
- `SlabNames` (`slab_names.dfy`): the file name as text, as Python
  formats a tuple of integers and an integer. Also a decoder that reads
  a name back into its index and slab number. The round trip proves that
  names never collide.
- `SurfaceGenerator` (`surface_generator.dfy`): `Generate`, the procedure
  with the engine reduced to a parameter, `slabCount`. It gives the number
  of slabs the engine returns for an orthorhombic index. `Generate` does
  the translation and the two failure exits. `NameSlabs` is the loop that
  names the slabs.

The table is modelled as written, including its oddities. `(0,-2,-2)` is
listed where `(0,-1,-2)` would complete the (012) family. The comment
beside the lists names `(-1,0,2)` as an equivalent, but the list does not
hold it. The orthorhombic output `(0,2,2)` is not itself accepted. The
translation swaps `(1,0,0)` and `(1,1,0)`.

An index outside the four families makes the source fail with an unbound
name. An empty slab list makes the source fail when it reads the first
slab's lattice, before any file is written. The model returns
`Failure(MillerUnbound)` and `Failure(NoSlabs)` for these two cases. It
never uses a default value.

## Model

| member | source | states |
|---|---|---|
| `Miller.Translate` | surface_creator.py:69-76 | an index that is translated goes to one of the four orthorhombic indices (1,1,0), (0,0,1), (1,0,0), (0,2,2) |
| `Miller.TranslateSpec` | surface_creator.py:64-76 | an index translates to c exactly when some family lists it and that family's orthorhombic index is c (both directions) |
| `Miller.TranslateUnbound` | surface_creator.py:69-80 | the translation is None exactly when no family lists the index |
| `Miller.TranslateFamily` | surface_creator.py:64-76 | every member of a family translates to that family's orthorhombic index: the (100) members to (1,1,0), (0,0,±1) to (0,0,1), the (110) members to (1,0,0), the (012) members to (0,2,2) |
| `Miller.TranslateOnto` | surface_creator.py:69-76 | each of the four orthorhombic indices is the translation of some accepted index |
| `Miller.FamiliesDisjoint` | surface_creator.py:64-67 | an index listed in two families means the two are the same family |
| `Miller.CanonicalInjective` | surface_creator.py:69-76 | two families have the same orthorhombic index exactly when they are the same family |
| `Miller.AcceptedCount` | surface_creator.py:64-67 | the four lists hold 20 indices, and no list holds an index twice |
| `Miller.ListsDisjoint` | surface_creator.py:64-67 | the sets of indices held by the four lists are pairwise disjoint |
| `Miller.AcceptedIndicesCount` | surface_creator.py:64-67 | the four lists together hold exactly 20 distinct indices |
| `Miller.TranslateAccepted` | surface_creator.py:64-76 | an index is translated exactly when one of the four lists holds it |
| `Miller.CanonicalIndicesOfFamilies` | surface_creator.py:69-76 | the set of four orthorhombic indices bounding `Translate` is exactly the set of the families' orthorhombic indices |
| `Miller.TranslateIsFirstMatch` | surface_creator.py:69-76 | the if/elif chain is first-match lookup over the families in the order (100), (001), (110), (012) |
| `Miller.FirstMatchFinds` | surface_creator.py:69-76 | first-match lookup in any order that includes the index's family returns that family's orthorhombic index |
| `Miller.FirstMatchMisses` | surface_creator.py:69-76 | first-match lookup over families that do not list the index returns None |
| `Miller.OrderIrrelevant` | surface_creator.py:64-76 | any order of the chain that tests all four families gives the same result as the source's order |
| `Miller.NegationClosed` | surface_creator.py:64-66 | the (100), (001) and (110) lists are closed under negating all three components, and an index and its negation translate alike |
| `Miller.Plane012Negation` | surface_creator.py:67 | the negation of a (012) member is listed exactly when its h is non-zero; when h is zero the negation is not translated at all |
| `Miller.Plane012AsListed` | surface_creator.py:67-76 | (0,-2,-2) and (0,1,2) translate to (0,2,2), while (0,-1,-2) is not translated |
| `Miller.CommentedIndicesNotListed` | surface_creator.py:56-67 | (-1,0,2), named in the comment, is not translated, and neither is the output (0,2,2) |
| `Miller.TranslateSwaps100And110` | surface_creator.py:64-74 | (1,1,0) translates to (1,0,0) and (1,0,0) translates to (1,1,0) |
| `SlabNames.Decimal` | surface_creator.py:96 | the decimal text of a counter is non-empty, made of digits only, "0" for zero and without a leading zero otherwise; with `DecimalRoundTrip` this fixes it to Python's text of the number |
| `SlabNames.IntText` | surface_creator.py:96 | the text of an index component starts with '-' exactly when it is negative and is otherwise digits; `ParseIntRoundTrip` gives its meaning |
| `SlabNames.TripleText` | surface_creator.py:96 | the text of a Miller index is enclosed in "(" and ")"; its fields are read back by `NameRoundTrip` |
| `SlabNames.SlabFileName` | surface_creator.py:96 | the f-string name of slab i of index m starts with "slab_" and ends with ".cif"; what it carries is stated by `NameRoundTrip` (decoding gives back (m, i)) and `NameInjective` |
| `SlabNames.DecimalRoundTrip` | surface_creator.py:96 | reading the decimal text of a number gives the number back |
| `SlabNames.ParseIntRoundTrip` | surface_creator.py:96 | reading the text of an index component, sign included, gives the component back |
| `SlabNames.IntTextHasNoSeparator` | surface_creator.py:96 | the text of an integer holds no ',' and no ')', so the fields of a name can be split apart |
| `SlabNames.NameRoundTrip` | surface_creator.py:96 | decoding the file name of slab i of index m gives back (m, i) |
| `SlabNames.NameInjective` | surface_creator.py:96 | two file names are equal exactly when both the index and the slab number are equal |
| `SlabNames.NamesDistinct` | surface_creator.py:93-96 | slabs with different numbers of the same index get different file names |
| `SlabNames.NameEmbedsUntranslated` | surface_creator.py:69-96 | when the translation changes the index, the file name differs from the one the translated index would give |
| `SlabNames.NameSequence` | surface_creator.py:93-96 | the names of slabs 0 to n-1 of one index decode to (index, j) and are pairwise distinct |
| `SlabNames.SlabFileNameExample` | surface_creator.py:96 | slab 0 of (0,0,1) is named "slab_(0, 0, 1)_0.cif" |
| `SlabNames.TextExamples` | surface_creator.py:96 | (1,-1,0) is written "(1, -1, 0)" and the counter 12 is written "12" |
| `SurfaceGenerator.NameSlabs` | surface_creator.py:93-96 | the loop over the slabs yields exactly count names. Name j is the name of slab j of the given index, decodes to (index, j), and differs from every other name |
| `SurfaceGenerator.Generate` | surface_creator.py:69-96 | fails with MillerUnbound exactly when the index is untranslatable, and with NoSlabs exactly when the engine returns no slab. Otherwise it returns one name per slab, in order: name j is the name of slab j of the untranslated index, decodes to (index, j), and differs from every other name |

## Left out

- Loading `Fe2O3_orth.cif` and writing each slab file: file I/O. The model stops at the file names.
- `SlabGenerator`, `get_slabs`, `make_supercell` and `get_orthogonal_c_slab`: pymatgen geometry, not visible in this source. The engine appears only through the number of slabs it returns for an orthorhombic index. The names `Generate` returns are the names the loop writes to provided every per-slab call succeeds. `make_supercell`, `get_orthogonal_c_slab` or the write can still fail for a slab, for example with a zero multiplier, and the model does not capture that.
- The supercell multipliers `int(round(width / a))` and `int(round(depth / b))`: floating point and Python's round-half-to-even. The source does not guard against a zero multiplier, and the model claims nothing about one.
- Python list membership across types (a list `[0,0,1]`, a float 1.0): the model takes integer triples only.
- Which slab lists the engine can return, and when one is empty: the engine is outside this source. The model covers the empty list only by its effect. The source reads the first slab's lattice before its loop and fails, which is `Failure(NoSlabs)` here.
