/** The chain of interceptors: requests pass forwards, responses backwards, and the first error ends a pass. */
module InterceptorChain {
  import opened Results

  /** `Q` is what requests are, `P` what responses are, `E` what errors are. */
  datatype Interceptor<!Q, !P, !E> = Interceptor(onRequest: Q -> Result<Q, E>, onResponse: (Q, P) -> Result<P, E>)

  /** The outcome of the request pass, and how many interceptors were run. */
  function RequestPass<Q, P, E>(chain: seq<Interceptor<Q, P, E>>, q: Q): (Result<Q, E>, nat) {
    if chain == [] then (Ok(q), 0)
    else
      match chain[0].onRequest(q)
      case Err(e) => (Err(e), 1)
      case Ok(q') =>
        var (r, n) := RequestPass(chain[1..], q');
        (r, n + 1)
  }

  function ResponsePass<Q, P, E>(chain: seq<Interceptor<Q, P, E>>, q: Q, p: P): (Result<P, E>, nat) {
    if chain == [] then (Ok(p), 0)
    else
      match chain[|chain| - 1].onResponse(q, p)
      case Err(e) => (Err(e), 1)
      case Ok(p') =>
        var (r, n) := ResponsePass(chain[..|chain| - 1], q, p');
        (r, n + 1)
  }

  class Chain<Q, P, E> {
    const interceptors: seq<Interceptor<Q, P, E>>

    constructor (interceptors: seq<Interceptor<Q, P, E>>)
      ensures this.interceptors == interceptors
    {
      this.interceptors := interceptors;
    }

    method InterceptRequest(q: Q) returns (r: Result<Q, E>, ran: nat)
      ensures (r, ran) == RequestPass(interceptors, q)
    {
      var current := q;
      ran := 0;
      for i := 0 to |interceptors|
        invariant ran == i
        invariant RequestPass(interceptors, q) ==
                  (RequestPass(interceptors[i..], current).0, i + RequestPass(interceptors[i..], current).1)
      {
        assert interceptors[i..][1..] == interceptors[i + 1..];
        var next := interceptors[i].onRequest(current);
        ran := ran + 1;
        if next.Err? {
          return Err(next.error), ran;
        }
        current := next.value;
      }
      r := Ok(current);
    }

    method InterceptResponse(q: Q, p: P) returns (r: Result<P, E>, ran: nat)
      ensures (r, ran) == ResponsePass(interceptors, q, p)
    {
      var current := p;
      ran := 0;
      assert interceptors[..|interceptors|] == interceptors;
      for i := |interceptors| downto 0
        invariant ran == |interceptors| - i
        invariant ResponsePass(interceptors, q, p) ==
                  (ResponsePass(interceptors[..i], q, current).0, ran + ResponsePass(interceptors[..i], q, current).1)
      {
        assert interceptors[..i + 1][..i] == interceptors[..i];
        var next := interceptors[i].onResponse(q, current);
        ran := ran + 1;
        if next.Err? {
          return Err(next.error), ran;
        }
        current := next.value;
      }
      r := Ok(current);
    }
  }

  /** A chain of one runs that one, on what it is given; an empty chain changes nothing. */
  lemma PassOfOne<Q, P, E>(c: Interceptor<Q, P, E>, q: Q, p: P)
    ensures RequestPass([c], q) == (c.onRequest(q), 1) && ResponsePass([c], q, p) == (c.onResponse(q, p), 1)
    ensures var none: seq<Interceptor<Q, P, E>> := [];
            RequestPass(none, q) == (Ok(q), 0) && ResponsePass(none, q, p) == (Ok(p), 0)
  {
    assert [c][1..] == [] && [c][..0] == [];
  }

  /** The request pass of a + b is a, and then b unless a failed, in which case nothing of b runs. */
  lemma {:induction false} RequestPassAppend<Q, P, E>(a: seq<Interceptor<Q, P, E>>, b: seq<Interceptor<Q, P, E>>, q: Q)
    ensures RequestPass(a + b, q) ==
            match RequestPass(a, q)
            case (Err(e), n) => (Err(e), n)
            case (Ok(q'), n) => (RequestPass(b, q').0, n + RequestPass(b, q').1)
  {
    if a == [] {
      assert a + b == b;
    } else {
      assert (a + b)[1..] == a[1..] + b;
      if a[0].onRequest(q).Ok? {
        RequestPassAppend(a[1..], b, a[0].onRequest(q).value);
      }
    }
  }

  /** The response pass of a + b is b, and then a. */
  lemma {:induction false} ResponsePassAppend<Q, P, E>(a: seq<Interceptor<Q, P, E>>, b: seq<Interceptor<Q, P, E>>,
                                                       q: Q, p: P)
    ensures ResponsePass(a + b, q, p) ==
            match ResponsePass(b, q, p)
            case (Err(e), n) => (Err(e), n)
            case (Ok(p'), n) => (ResponsePass(a, q, p').0, n + ResponsePass(a, q, p').1)
  {
    if b == [] {
      assert a + b == a;
    } else {
      var init, last := b[..|b| - 1], b[|b| - 1];
      assert (a + b)[..|a + b| - 1] == a + init && (a + b)[|a + b| - 1] == last;
      if last.onResponse(q, p).Ok? {
        ResponsePassAppend(a, init, q, last.onResponse(q, p).value);
      }
    }
  }

  /** A pass that succeeds ran everything; one that fails stopped at the failing interceptor. */
  lemma {:induction false} StopsAtFirstError<Q, P, E>(chain: seq<Interceptor<Q, P, E>>, q: Q)
    ensures RequestPass(chain, q).1 <= |chain|
    ensures RequestPass(chain, q).0.Ok? ==> RequestPass(chain, q).1 == |chain|
    ensures RequestPass(chain, q).0.Err? ==>
              var n := RequestPass(chain, q).1;
              && n > 0 && RequestPass(chain[..n - 1], q).0.Ok?
              && chain[n - 1].onRequest(RequestPass(chain[..n - 1], q).0.value) == Err(RequestPass(chain, q).0.error)
  {
    if chain != [] && chain[0].onRequest(q).Ok? {
      StopsAtFirstError(chain[1..], chain[0].onRequest(q).value);
      var n := RequestPass(chain, q).1;
      if RequestPass(chain, q).0.Err? {
        assert chain[..n - 1][1..] == chain[1..][..n - 2];
      }
    }
  }

  /** The response step gives back what the request step was given. */
  ghost predicate Undoes<T(!new), E(!new)>(c: Interceptor<T, T, E>) {
    forall q: T, t: T :: c.onRequest(t).Ok? ==> c.onResponse(q, c.onRequest(t).value) == Ok(t)
  }

  /** If every interceptor undoes itself, the whole chain does, whatever its length: that is why it runs backwards. */
  lemma {:induction false} ChainUndoes<T(!new), E(!new)>(chain: seq<Interceptor<T, T, E>>, q: T, t: T)
    requires forall i :: 0 <= i < |chain| ==> Undoes(chain[i])
    requires RequestPass(chain, t).0.Ok?
    ensures ResponsePass(chain, q, RequestPass(chain, t).0.value).0 == Ok(t)
  {
    if chain != [] {
      var first, rest := chain[0], chain[1..];
      var t' := first.onRequest(t).value;
      ChainUndoes(rest, q, t');
      assert chain == [first] + rest;
      ResponsePassAppend([first], rest, q, RequestPass(chain, t).0.value);
      assert Undoes(first);
      assert [first][..0] == [];
    }
  }
}
