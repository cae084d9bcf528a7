/** The name of a spawned session: the first of a fixed list of candidates whose branch does not exist yet
    (core/host/coordinator.go). */
module SpawnNames {

  const MAX_PROBES: nat := 100

  function Decimal(n: nat): (text: string)
    ensures text != ""
  {
    (if n < 10 then "" else Decimal(n / 10)) + ["0123456789"[n % 10]]
  }

  /** What a decimal text says. */
  function Number(text: string): nat {
    if text == "" then 0
    else 10 * Number(text[..|text| - 1]) + DigitOf(text[|text| - 1])
  }

  function DigitOf(c: char): nat {
    if '0' <= c <= '9' then c as int - '0' as int else 0
  }

  lemma DigitSays(d: nat)
    requires d < 10
    ensures '0' <= "0123456789"[d] <= '9' && DigitOf("0123456789"[d]) == d
  {
  }

  lemma NumberOneMore(front: string, c: char)
    ensures Number(front + [c]) == 10 * Number(front) + DigitOf(c)
  {
    assert (front + [c])[..|front|] == front;
  }

  /** A number is written in decimal digits, the first of them not zero, and the text says that number. */
  lemma {:induction false} DecimalSays(n: nat)
    ensures Number(Decimal(n)) == n && forall c :: c in Decimal(n) ==> '0' <= c <= '9'
    ensures n > 0 ==> Decimal(n)[0] != '0'
  {
    hide Number;
    DigitSays(n % 10);
    if n < 10 {
      assert Decimal(n) == "" + ["0123456789"[n]];
      NumberOneMore("", "0123456789"[n]);
      NoDigits();
    } else {
      DecimalSays(n / 10);
      NumberOneMore(Decimal(n / 10), "0123456789"[n % 10]);
    }
  }

  lemma NoDigits()
    ensures Number("") == 0
  {
  }

  /** The candidates in order, from the first: the base itself, then the base with a number from two on. */
  function Candidate(base: string, k: nat): string {
    if k <= 1 then base else base + "-" + Decimal(k)
  }

  /** What asking for a candidate's branch can answer. */
  datatype Probe = Free | Taken | Failed

  datatype Outcome = Named(name: string) | Exhausted | ProbeFailed

  /** Every candidate before the k-th is taken. */
  predicate TakenBefore(probe: string -> Probe, base: string, k: nat) {
    forall i :: 1 <= i < k ==> probe(Candidate(base, i)) == Taken
  }

  method FreeName(base: string, probe: string -> Probe) returns (r: Outcome)
    ensures r.Named? ==>
              exists k ::
                && 1 <= k <= 100 && r.name == Candidate(base, k)
                && r.name == (if k == 1 then base else base + "-" + Decimal(k))
                && probe(r.name) == Free && TakenBefore(probe, base, k)
    ensures r.ProbeFailed?
            ==> exists k :: 1 <= k <= 100 && probe(Candidate(base, k)) == Failed && TakenBefore(probe, base, k)
    ensures r.Exhausted? <==> TakenBefore(probe, base, 101)
  {
    hide Decimal;
    var name := base;
    var attempt := 2;
    while true
      invariant 2 <= attempt <= MAX_PROBES + 1
      invariant name == Candidate(base, attempt - 1)
      invariant TakenBefore(probe, base, attempt - 1)
      decreases MAX_PROBES + 1 - attempt
    {
      match probe(name) {
        case Failed => return ProbeFailed;
        case Free => return Named(name);
        case Taken =>
      }
      if attempt > MAX_PROBES {
        return Exhausted;
      }
      name := base + "-" + Decimal(attempt);
      attempt := attempt + 1;
    }
  }

  // ---------------------------------------------------------------- no candidate comes twice

  lemma {:induction false} DecimalInjective(a: nat, b: nat)
    requires Decimal(a) == Decimal(b)
    ensures a == b
    decreases a
  {
    var one, two := Decimal(a), Decimal(b);
    assert one[|one| - 1] == "0123456789"[a % 10] && two[|two| - 1] == "0123456789"[b % 10];
    assert a % 10 == b % 10;
    assert one[..|one| - 1] == if a < 10 then "" else Decimal(a / 10);
    assert two[..|two| - 1] == if b < 10 then "" else Decimal(b / 10);
    if a >= 10 && b >= 10 {
      DecimalInjective(a / 10, b / 10);
    }
  }

  /** Each probe asks for another name. */
  lemma CandidatesDiffer(base: string, i: nat, j: nat)
    requires 1 <= i < j
    ensures Candidate(base, i) != Candidate(base, j)
  {
    if Candidate(base, i) == Candidate(base, j) {
      var stem := base + "-";
      assert |Candidate(base, j)| > |base|;
      assert i > 1 && (stem + Decimal(i))[|stem|..] == Decimal(i) && (stem + Decimal(j))[|stem|..] == Decimal(j);
      DecimalInjective(i, j);
    }
  }

  /** Distinct candidates that are all taken are as many taken names. */
  lemma {:induction false} TakenCount(probe: string -> Probe, base: string, taken: set<string>, k: nat)
    requires k >= 1 && TakenBefore(probe, base, k)
    requires forall name :: name in taken <==> probe(name) == Taken
    ensures |taken| >= k - 1
    decreases k
  {
    if k > 1 {
      var last := Candidate(base, k - 1);
      var others: string -> Probe := name => if name == last then Free else probe(name);
      forall i | 1 <= i < k - 1
        ensures others(Candidate(base, i)) == Taken
      {
        CandidatesDiffer(base, i, k - 1);
      }
      TakenCount(others, base, taken - {last}, k - 1);
    }
  }

  /** A spawn runs out of names only among a hundred existing branches: with fewer, and no failing probe, it finds
      one. */
  lemma FewerThanAHundredLeaveAName(probe: string -> Probe, base: string, taken: set<string>)
    requires forall name :: name in taken <==> probe(name) == Taken
    requires |taken| < 100
    ensures !TakenBefore(probe, base, 101)
  {
    if TakenBefore(probe, base, MAX_PROBES + 1) {
      TakenCount(probe, base, taken, MAX_PROBES + 1);
    }
  }
}
