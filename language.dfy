/** The entry type of the language tables the registration and profile
    screens each declare, and the two facts about a table that the screens
    rely on. */
module LanguageTables {
  /** One entry of a language table: `{ code, name }`. */
  datatype Language = Language(code: string, name: string)

  /** No two entries of `table` share a code. */
  predicate DistinctCodes(table: seq<Language>) {
    forall i, j :: 0 <= i < j < |table| ==> table[i].code != table[j].code
  }

  /** Every entry of `table` has a non-empty name. */
  predicate NamedEntries(table: seq<Language>) {
    forall i :: 0 <= i < |table| ==> table[i].name != ""
  }
}
