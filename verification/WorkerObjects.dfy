/** The worker's handlers for the manager's messages, on its pool object. */
module WorkerObjects {
  import opened Types
  import PR = PoolRuns
  import opened Worker
  import opened PoolObjects

  class SubscriberImpl {
    const pool: InnerPool

    constructor (pool: InnerPool)
      ensures this.pool == pool
    {
      this.pool := pool;
    }

    method AddServer(url: Url)
      requires pool.Valid()
      modifies pool`backends
      ensures pool.Valid() && pool.View() == Apply(old(pool.View()), NewServer(url))
    {
      var _ := pool.Add(Named(url));
    }

    method MarkServerDown(url: Url)
      requires pool.Valid()
      modifies pool.backends`state
      ensures pool.Valid() && pool.View() == Apply(old(pool.View()), ServerDown(url))
    {
      ghost var vs := Values(pool.backends);
      var r := pool.Find(Named(url));
      if r.Some? {
        ghost var i := RR.Find(vs, Named(url)).value;
        r.value.MarkDown();
        ValuesAre(pool.backends, PR.SetStateAt(vs, i, Down));
      }
    }

    method MarkServerActive(url: Url)
      requires pool.Valid()
      modifies pool.backends`state
      ensures pool.Valid() && pool.View() == Apply(old(pool.View()), ServerActive(url))
    {
      ghost var vs := Values(pool.backends);
      var r := pool.Find(Named(url));
      if r.Some? {
        ghost var i := RR.Find(vs, Named(url)).value;
        r.value.MarkActive();
        ValuesAre(pool.backends, PR.SetStateAt(vs, i, Active));
      }
    }
  }
}
