/**
 Access rights of an attribute: a set of two flags held in an unsigned byte.
 The read and write flags are successive powers of two and read/write is
 their bitwise union; a label table names each of the three meaningful values.
 */
module Access {

  /** go-vitotrol stores access rights in an unsigned 8-bit integer. */
  newtype AttrAccess = x: int | 0 <= x < 0x100

  /** Bitwise or, and, and left shift of a one, on the 8-bit representation. */
  function BitOr(a: AttrAccess, b: AttrAccess): AttrAccess {
    ((a as bv8) | (b as bv8)) as AttrAccess
  }

  function BitAnd(a: AttrAccess, b: AttrAccess): AttrAccess {
    ((a as bv8) & (b as bv8)) as AttrAccess
  }

  function Flag(i: nat): AttrAccess
    requires i < 8
  {
    ((1 as bv8) << i) as AttrAccess
  }

  /** The flags are declared with an iota shift, 1 << 0 then 1 << 1, and
      read/write as the union of the two. */
  const ReadOnly: AttrAccess := Flag(0)
  const WriteOnly: AttrAccess := Flag(1)
  const ReadWrite: AttrAccess := BitOr(ReadOnly, WriteOnly)

  /** Label of each meaningful access value. */
  const AccessToStr: map<AttrAccess, string> :=
    map[ReadOnly := "read-only", WriteOnly := "write-only", ReadWrite := "read/write"]

  /** A meaningful access value: at least one flag set and no bit outside the two flags. */
  predicate IsFlagSet(a: AttrAccess) {
    a != 0 && BitAnd(a, ReadWrite) == a
  }

  /** The flag constants have the values 1, 2 and 3, the two single flags are
      disjoint, and read/write contains both. */
  lemma FlagLaws()
    ensures ReadOnly == 1 && WriteOnly == 2 && ReadWrite == 3
    ensures BitAnd(ReadOnly, WriteOnly) == 0
    ensures BitAnd(ReadWrite, ReadOnly) == ReadOnly && BitAnd(ReadWrite, WriteOnly) == WriteOnly
  {
  }

  /** The label table is defined on exactly the three meaningful flag sets,
      and on no other byte. */
  lemma AccessToStrDomain(a: AttrAccess)
    ensures a in AccessToStr <==> IsFlagSet(a)
    ensures a in AccessToStr <==> a == ReadOnly || a == WriteOnly || a == ReadWrite
  {
  }

  /** The three labels are pairwise distinct, so a label identifies its access value. */
  lemma AccessLabelsDistinct(a: AttrAccess, b: AttrAccess)
    requires a in AccessToStr && b in AccessToStr
    ensures AccessToStr[a] == AccessToStr[b] <==> a == b
  {
  }

  /** The label used when an attribute reference is rendered: indexing a Go map
      with a missing key yields the empty string. */
  function AccessLabel(a: AttrAccess): (s: string)
    ensures s != "" <==> IsFlagSet(a)
    ensures IsFlagSet(a) ==> s == AccessToStr[a]
  {
    if a in AccessToStr then AccessToStr[a] else ""
  }
}
