/** `profiles/clients.py`: the registered OAuth2 clients of the proxy. */
module Clients {
  import opened Wrappers
  import opened Seqs

  /** A registered client. It defines no equality of its own, so two clients are the same
      only when they are the same object. */
  class Client {
    const name: string
    const clientId: string
    const clientSecret: string
    const redirectUri: string

    constructor (name: string, clientId: string, clientSecret: string, redirectUri: string)
      ensures this.name == name && this.clientId == clientId
      ensures this.clientSecret == clientSecret && this.redirectUri == redirectUri
    {
      this.name := name;
      this.clientId := clientId;
      this.clientSecret := clientSecret;
      this.redirectUri := redirectUri;
    }
  }

  /** The first occurrence of every element of `s`, in order: what appending each element
      that is `not in` the list so far leaves. */
  function Dedup<T(==)>(s: seq<T>): (r: seq<T>)
    ensures Distinct(r)
    ensures forall i :: 0 <= i < |r| ==> r[i] in s
    ensures forall i :: 0 <= i < |s| ==> s[i] in r
  {
    if s == [] then []
    else
      var init, last := s[..|s| - 1], s[|s| - 1];
      assert forall i :: 0 <= i < |init| ==> s[i] == init[i];
      if last in init then Dedup(init) else Dedup(init) + [last]
  }

  lemma FirstIndexPrefix<T>(a: seq<T>, b: seq<T>, x: T)
    requires x in a
    ensures FirstIndex(a + b, x) == FirstIndex(a, x)
  {
    assert (a + b)[FirstIndex(a, x).value] == x;
  }

  /** The kept elements appear in the order of their first occurrences in `s`. */
  lemma {:induction false} DedupOrder<T>(s: seq<T>, i: nat, j: nat)
    requires i < j < |Dedup(s)|
    ensures FirstIndex(s, Dedup(s)[i]).value < FirstIndex(s, Dedup(s)[j]).value
  {
    var init, last := s[..|s| - 1], s[|s| - 1];
    assert s == init + [last];
    var r := Dedup(s);
    assert r[i] in init by {
      if last !in init && i == |Dedup(init)| { assert false; }
    }
    FirstIndexPrefix(init, [last], r[i]);
    if r[j] in init {
      FirstIndexPrefix(init, [last], r[j]);
      DedupOrder(init, i, j);
    } else {
      assert FirstIndex(s, r[j]) == Some(|s| - 1);
    }
  }

  /** The registry holds each distinct argument once: as many as there are distinct arguments. */
  lemma DedupLength<T>(s: seq<T>)
    ensures |Dedup(s)| == |set x | x in s|
  {
    DistinctCard(Dedup(s));
    assert (set x | x in Dedup(s)) == (set x | x in s);
  }

  function Ids(cs: seq<Client>): (ids: seq<string>)
    ensures |ids| == |cs| && forall i :: 0 <= i < |cs| ==> ids[i] == cs[i].clientId
  {
    seq(|cs|, i requires 0 <= i < |cs| => cs[i].clientId)
  }

  /** `Clients(*args)`. */
  class Clients {
    var elements: seq<Client>
    ghost const args: seq<Client>

    ghost predicate Valid()
      reads this
    {
      elements == Dedup(args)
    }

    constructor (args: seq<Client>)
      ensures this.args == args && Valid()
    {
      this.args := args;
      var acc: seq<Client> := [];
      var n := 0;
      while n < |args|
        invariant 0 <= n <= |args|
        invariant acc == Dedup(args[..n])
      {
        assert args[..n + 1][..n] == args[..n];
        if args[n] !in acc {
          acc := acc + [args[n]];
        }
        n := n + 1;
      }
      assert args[..n] == args;
      elements := acc;
    }

    /** `find(client_id)`: the first stored client with that id; `None` where a KeyError is raised. */
    function Find(clientId: string): (r: Option<Client>)
      reads this
      ensures r.Some? ==> r.value in elements && r.value.clientId == clientId
      ensures r.Some? ==> exists i :: 0 <= i < |elements| && elements[i] == r.value &&
                                      forall j :: 0 <= j < i ==> elements[j].clientId != clientId
      ensures r.None? <==> forall i :: 0 <= i < |elements| ==> elements[i].clientId != clientId
    {
      match FirstIndex(Ids(elements), clientId)
      case None => None
      case Some(i) => Some(elements[i])
    }

    /** `value in clients`: whether that very object was passed to the constructor. */
    function Contains(value: Client): (b: bool)
      reads this
      ensures Valid() ==> (b <==> value in args)
    {
      value in elements
    }

    /** `len(clients)`: the number of distinct constructor arguments. */
    function Length(): (n: nat)
      reads this
      ensures Valid() ==> n == |set c | c in args|
    {
      DedupLength(args);
      |elements|
    }
  }
}
