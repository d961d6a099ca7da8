/** Token counts by key, as the model provider reports them. */
module TokenUsage {
  type Usage = map<string, int>

  function Used(u: Usage, key: string): int {
    if key in u then u[key] else 0
  }

  function Plus(total: Usage, more: Usage): Usage {
    map key | key in total.Keys + more.Keys :: Used(total, key) + Used(more, key)
  }

  lemma PlusNothing(total: Usage)
    ensures Plus(total, map[]) == total
  {
  }

  /** Adds one mapping to another, key by key. */
  method AddUsage(total: Usage, more: Usage) returns (r: Usage)
    ensures r == Plus(total, more)
  {
    r := total;
    var rest := more.Keys;
    while rest != {}
      invariant rest <= more.Keys
      invariant r.Keys == total.Keys + (more.Keys - rest)
      invariant forall key | key in r :: r[key] == Used(total, key) + if key in rest then 0 else Used(more, key)
    {
      var key :| key in rest;
      r := r[key := Used(r, key) + more[key]];
      rest := rest - {key};
    }
  }
}
