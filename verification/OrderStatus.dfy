/**
 The life of an order (`validOrderTransition` and the status part of
 `UpdateLocalOrderStatusReason` in domains.go).  Statuses are free text: the transition table is
 consulted in lower case and trimmed, the effects of completing and cancelling are not.
 */
module OrderStatus {
  import opened Text

  function Normal(s: string): string { Lower(Trim(s)) }

  function Allowed(from: string): set<string> {
    if from == "" then {"pending", "accepted", "preparing", "ready", "completed", "cancelled"}
    else if from == "pending" then {"accepted", "preparing", "ready", "completed", "cancelled"}
    else if from == "accepted" then {"preparing", "ready", "completed", "cancelled"}
    else if from == "preparing" then {"ready", "completed", "cancelled"}
    else if from == "ready" then {"completed", "cancelled"}
    else {}
  }

  predicate ValidTransition(from: string, to: string) {
    Normal(from) == Normal(to) || Normal(to) in Allowed(Normal(from))
  }

  /** How far along an order is; a cancelled one is past everything, an unknown word is nowhere. */
  function Stage(status: string): int {
    if status == "" then 0
    else if status == "pending" then 1
    else if status == "accepted" then 2
    else if status == "preparing" then 3
    else if status == "ready" then 4
    else if status == "completed" then 5
    else if status == "cancelled" then 6
    else -1
  }

  /** An order only ever goes forward, by any number of stages, and not once it is completed or cancelled. */
  lemma TransitionIff(from: string, to: string)
    ensures ValidTransition(from, to) <==>
            (Normal(from) == Normal(to) || (0 <= Stage(Normal(from)) <= 4 && Stage(Normal(from)) < Stage(Normal(to))))
  {
    AllowedIff(Normal(from), Normal(to));
  }

  lemma AllowedIff(from: string, to: string)
    ensures to in Allowed(from) <==> (0 <= Stage(from) <= 4 && Stage(from) < Stage(to))
  {
  }

  /** The request is accepted and is not a repetition of the current status. */
  predicate Changes(prev: string, next: string) {
    ValidTransition(prev, next) && !EqualFold(prev, next)
  }

  function StatusAfter(prev: string, next: string): string {
    if Changes(prev, next) then next else prev
  }

  /** This request takes the recipe out of stock. */
  predicate Deducts(prev: string, next: string) {
    Changes(prev, next) && next == "completed" && prev != "completed"
  }

  predicate Trimmed(s: string) { Trim(s) == s }

  function Final(prev: string, requests: seq<string>): string
    decreases |requests|
  {
    if |requests| == 0 then prev else Final(StatusAfter(prev, requests[0]), requests[1..])
  }

  /** How often a run of requests takes the recipe out of stock. */
  function Deductions(prev: string, requests: seq<string>): nat
    decreases |requests|
  {
    if |requests| == 0 then 0
    else (if Deducts(prev, requests[0]) then 1 else 0) + Deductions(StatusAfter(prev, requests[0]), requests[1..])
  }

  lemma LowerIdle(s: string)
    requires forall i :: 0 <= i < |s| ==> LowerChar(s[i]) == s[i]
    ensures Lower(s) == s
  {
  }

  lemma CompletedText()
    ensures Trim("completed") == "completed" && Lower("completed") == "completed" && Normal("completed") == "completed"
    ensures Trim("cancelled") == "cancelled" && Normal("cancelled") == "cancelled"
  {
    hide Trim;
    TrimIdle("completed");
    TrimIdle("cancelled");
    LowerIdle("completed");
    LowerIdle("cancelled");
  }

  /**
   An order already completed takes its recipe out of stock again exactly when its stored status
   carries blanks around the word and "completed" is requested.
   */
  lemma RepeatIff(prev: string, next: string)
    requires Normal(prev) == "completed"
    ensures Deducts(prev, next) <==> next == "completed" && Lower(prev) != "completed"
  {
    CompletedText();
  }

  lemma CompletedStays(prev: string, next: string)
    requires Normal(prev) == "completed" && Trimmed(prev) && Trimmed(next)
    ensures StatusAfter(prev, next) == prev && !Deducts(prev, next)
  {
  }

  lemma {:induction false} NoMoreDeductions(prev: string, requests: seq<string>)
    requires Normal(prev) == "completed" && Trimmed(prev)
    requires forall i :: 0 <= i < |requests| ==> Trimmed(requests[i])
    ensures Deductions(prev, requests) == 0 && Final(prev, requests) == prev
    decreases |requests|
  {
    if |requests| > 0 {
      CompletedStays(prev, requests[0]);
      NoMoreDeductions(prev, requests[1..]);
    }
  }

  /** With trimmed statuses the recipe leaves stock at most once, and only on the way to "completed". */
  lemma {:induction false} AtMostOnce(prev: string, requests: seq<string>)
    requires Trimmed(prev) && forall i :: 0 <= i < |requests| ==> Trimmed(requests[i])
    ensures Deductions(prev, requests) <= 1
    ensures prev != "completed" ==>
              (Deductions(prev, requests) == 1 <==> Final(prev, requests) == "completed")
    decreases |requests|
  {
    CompletedText();
    if |requests| > 0 {
      var next := StatusAfter(prev, requests[0]);
      if Deducts(prev, requests[0]) {
        NoMoreDeductions(next, requests[1..]);
      } else {
        AtMostOnce(next, requests[1..]);
        if prev == "completed" { NoMoreDeductions(prev, requests); }
      }
    }
  }

  /** Blanks around the word let the same order leave stock twice. */
  lemma PaddedTwice()
    ensures Deductions("pending", ["completed", " completed", "completed"]) == 2
  {
    CompletedText();
    var r := ["completed", " completed", "completed"];
    assert r[1..] == [" completed", "completed"] && r[1..][1..] == ["completed"] && r[1..][1..][1..] == [];
    PendingText();
    PaddedText();
    assert Deducts("pending", "completed");
    assert StatusAfter("completed", " completed") == " completed";
    assert Deducts(" completed", "completed");
  }

  lemma PaddedText()
    ensures Trim(" completed") == "completed" && !EqualFold(" completed", "completed")
  {
    hide TrimRight;
    TrimIdle("completed");
    assert " completed"[1..] == "completed";
    assert |Lower(" completed")| == 10;
  }

  /** In capitals the transition is accepted and final, but nothing ever leaves stock. */
  lemma {:induction false} CapitalsNever(requests: seq<string>)
    requires forall i :: 0 <= i < |requests| ==> Trimmed(requests[i])
    ensures ValidTransition("pending", "COMPLETED")
    ensures Deductions("pending", ["COMPLETED"] + requests) == 0
  {
    CapitalsText();
    var all := ["COMPLETED"] + requests;
    assert all[1..] == requests;
    NoMoreDeductions("COMPLETED", requests);
  }

  lemma CapitalsText()
    ensures Trimmed("COMPLETED") && Normal("COMPLETED") == "completed"
    ensures Normal("pending") == "pending" && !EqualFold("pending", "COMPLETED")
  {
    CapitalsTrimmed();
    CapitalsLower();
    PendingText();
    hide Trim;
  }

  lemma CapitalsTrimmed()
    ensures Trimmed("COMPLETED")
  {
    hide Trim;
    TrimIdle("COMPLETED");
  }

  lemma CapitalsLower()
    ensures Lower("COMPLETED") == "completed"
  {
    var a, b := "COMPLETED", "completed";
    assert forall i :: 0 <= i < 9 ==> LowerChar(a[i]) == b[i];
  }

  lemma PendingText()
    ensures Normal("pending") == "pending" && Lower("pending") == "pending"
  {
    hide Trim;
    TrimIdle("pending");
    LowerIdle("pending");
  }
}
