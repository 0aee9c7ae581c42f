/**
 Print calls of one page that overlap (`print` in client.ts): while a request for a job is under
 way, the same request joins it and a different one is refused.
 */
module PrintClient {
  import opened Json
  import opened Fingerprint

  datatype InFlight = InFlight(fingerprint: Text, promise: nat)

  /** `Joined` and `Sent` carry the promise the caller waits on. */
  datatype Outcome = Sent(promise: nat) | Joined(other: nat) | Conflict | NotReady(failed: nat)

  /** What is remembered of a request under way. */
  ghost predicate Tracks(leq: Order, flight: InFlight, request: Json) {
    && Wellformed(request) && Printable(Norm(request, leq))
    && flight.fingerprint == Stable(request, leq)
  }

  lemma Track(leq: Order, request: Json, promise: nat)
    requires Wellformed(request)
    ensures Printable(Norm(request, leq))
    ensures Tracks(leq, InFlight(Stable(request, leq), promise), request)
  {
    NormKeeps(request, leq);
  }

  /**
   With any comparison of keys, only equal requests have one fingerprint; if no keys of the one or
   the other tie, all equal ones do.
   */
  lemma JoinIff(leq: Order, flight: InFlight, sent: Json, request: Json)
    requires Wellformed(request) && Printable(Norm(request, leq)) && Tracks(leq, flight, sent)
    ensures flight.fingerprint == Stable(request, leq) <==> Norm(request, leq) == Norm(sent, leq)
    ensures flight.fingerprint == Stable(request, leq) ==> Meaning(request) == Meaning(sent)
    ensures Comparable(leq, request, sent) ==>
              (flight.fingerprint == Stable(request, leq) <==> Meaning(request) == Meaning(sent))
  {
    SameTextIff(request, sent, leq);
    if Comparable(leq, request, sent) {
      if NoTies(request, leq) { Canonical(request, sent, leq); } else { Canonical(sent, request, leq); }
    }
  }

  /** Keys are compared consistently, and those of one of the two requests do not tie. */
  ghost predicate Comparable(leq: Order, request: Json, sent: Json) {
    TotalPreorder(leq) && (NoTies(request, leq) || NoTies(sent, leq))
  }

  class Client {
    const leq: Order
    var prints: map<Text, InFlight>
    var wire: seq<Json>
    var authenticated: bool
    var promises: nat
    ghost var requests: map<Text, Json>

    ghost predicate Valid()
      reads this
    {
      && prints.Keys == requests.Keys
      && forall job :: job in prints ==>
           Tracks(leq, prints[job], requests[job]) && prints[job].promise < promises
    }

    /**
     A call that overlaps another of the same job joins it or is refused, and sends nothing.  It
     joins only an equal request, up to the order of keys, and joins every one unless keys of both tie.
     */
    method Print(job: Text, request: Json) returns (r: Outcome)
      requires Valid() && Wellformed(request)
      modifies this
      ensures Valid()
      ensures job in old(prints) ==>
                && prints == old(prints) && wire == old(wire) && requests == old(requests)
                && r == (if Norm(request, leq) == Norm(old(requests)[job], leq)
                         then Joined(old(prints)[job].promise) else Conflict)
                && (r.Joined? ==> Meaning(request) == Meaning(old(requests)[job]))
                && (Comparable(leq, request, old(requests)[job]) ==>
                      (r.Joined? <==> Meaning(request) == Meaning(old(requests)[job])))
      ensures job !in old(prints) ==>
                && prints.Keys == old(prints).Keys + {job} && prints[job].promise == old(promises)
                && requests == old(requests)[job := request]
                && (r == if old(authenticated) then Sent(old(promises)) else NotReady(old(promises)))
                && wire == (if old(authenticated) then old(wire) + [request] else old(wire))
      ensures forall other :: other in old(prints) ==> other in prints && prints[other] == old(prints)[other]
    {
      hide Tracks, Norm, Stable, Meaning, Wellformed, Printable, Comparable;
      Track(leq, request, promises);
      var fingerprint := Stable(request, leq);
      if job in prints {
        JoinIff(leq, prints[job], requests[job], request);
        if prints[job].fingerprint == fingerprint { return Joined(prints[job].promise); }
        return Conflict;
      }
      var promise := promises;
      promises := promises + 1;
      if authenticated {
        wire := wire + [request];
        r := Sent(promise);
      } else {
        r := NotReady(promise);
      }
      prints := prints[job := InFlight(fingerprint, promise)];
      requests := requests[job := request];
    }

    /** The promise of a job settles, either way, and the job may be submitted anew. */
    method Settle(job: Text)
      requires Valid()
      modifies this
      ensures Valid() && prints == old(prints) - {job} && wire == old(wire) && promises == old(promises)
      ensures requests == old(requests) - {job}
    {
      prints := prints - {job};
      requests := requests - {job};
    }
  }
}
