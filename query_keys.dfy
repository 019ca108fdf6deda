/**
 * Cache keys of the projects queries: tuples whose parts are compared
 * structurally by the query cache.
 */
module QueryKeys {
  import opened ProjectTypes

  /** One part of a key tuple. */
  datatype KeyPart = Word(text: string) | FilterPart(filters: Filters) | PageNumber(n: int)

  type Key = seq<KeyPart>

  /** `queryKeys.projects.all`. */
  const All: Key := [Word("projects")]

  /** `queryKeys.projects.list(filters, page)`. */
  function ListKey(filters: Filters, page: int): Key {
    [Word("projects"), Word("list"), FilterPart(filters), PageNumber(page)]
  }

  /** `queryKeys.projects.detail(slug)`. */
  function DetailKey(slug: string): Key {
    [Word("projects"), Word("detail"), Word(slug)]
  }

  /** `all` is a prefix of every list key and every detail key. */
  lemma AllIsPrefix(filters: Filters, page: int, slug: string)
    ensures All <= ListKey(filters, page) && All <= DetailKey(slug)
  {
  }

  /** List keys are equal exactly when filters and page are equal. */
  lemma ListKeyInjective(f1: Filters, p1: int, f2: Filters, p2: int)
    ensures ListKey(f1, p1) == ListKey(f2, p2) <==> f1 == f2 && p1 == p2
  {
    if ListKey(f1, p1) == ListKey(f2, p2) {
      assert ListKey(f1, p1)[2] == ListKey(f2, p2)[2];
      assert ListKey(f1, p1)[3] == ListKey(f2, p2)[3];
    }
  }

  /** Detail keys are equal exactly when the slugs are. */
  lemma DetailKeyInjective(a: string, b: string)
    ensures DetailKey(a) == DetailKey(b) <==> a == b
  {
    if DetailKey(a) == DetailKey(b) { assert DetailKey(a)[2] == DetailKey(b)[2]; }
  }

  /** A list key is never a detail key: their second parts differ. */
  lemma ListKeyIsNotDetailKey(filters: Filters, page: int, slug: string)
    ensures ListKey(filters, page) != DetailKey(slug)
  {
    assert |ListKey(filters, page)| != |DetailKey(slug)|;
  }

  /** Filters are embedded as they are: the same statuses in another order give another key. */
  lemma ListKeyIsOrderSensitive(page: int)
    ensures ListKey(Filters([Completed, Planned], [], Display), page)
            != ListKey(Filters([Planned, Completed], [], Display), page)
  {
    ListKeyInjective(Filters([Completed, Planned], [], Display), page, Filters([Planned, Completed], [], Display), page);
  }
}
