/** The services carousel of the home page: an index into four services, stepped forwards
    and backwards with wrap-around. */
module Services {

  /** The titles of the four services, in display order. */
  const ServicesData: seq<string> :=
    ["Portfolio Management", "Retirement Investment", "Risk Management Assessment", "Wealth Planning"]

  /** The updater of the next button. */
  function NextIndex(prev: int): (r: int)
    ensures 0 <= prev < |ServicesData| ==> 0 <= r < |ServicesData| && r == (prev + 1) % |ServicesData|
  {
    if prev == |ServicesData| - 1 then 0 else prev + 1
  }

  /** The updater of the previous button. */
  function PrevIndex(prev: int): (r: int)
    ensures 0 <= prev < |ServicesData| ==>
              0 <= r < |ServicesData| && r == (prev + |ServicesData| - 1) % |ServicesData|
  {
    if prev == 0 then |ServicesData| - 1 else prev - 1
  }

  /** Each button undoes the other. */
  lemma NextPrevInverse(i: int)
    requires 0 <= i < |ServicesData|
    ensures PrevIndex(NextIndex(i)) == i && NextIndex(PrevIndex(i)) == i
  {
  }

  /** `n` presses of the next button. */
  function NextTimes(i: int, n: nat): int {
    if n == 0 then i else NextIndex(NextTimes(i, n - 1))
  }

  /** `n` presses of the next button move the index `n` places round the carousel. */
  lemma {:induction false} NextTimesRotates(i: int, n: nat)
    requires 0 <= i < |ServicesData|
    ensures NextTimes(i, n) == (i + n) % |ServicesData|
  {
    if n > 0 {
      NextTimesRotates(i, n - 1);
    }
  }

  /** Four presses of next come back to where they started. */
  lemma FourNextsReturn(i: int)
    requires 0 <= i < |ServicesData|
    ensures NextTimes(i, |ServicesData|) == i
  {
    NextTimesRotates(i, |ServicesData|);
  }

  /** The carousel component. */
  class Carousel {
    var currentService: int

    /** The index always picks a service. */
    predicate Valid()
      reads this
    {
      0 <= currentService < |ServicesData|
    }

    constructor()
      ensures Valid() && currentService == 0
    {
      currentService := 0;
    }

    method HandleNextService()
      requires Valid()
      modifies this
      ensures Valid() && currentService == NextIndex(old(currentService))
    {
      currentService := if currentService == |ServicesData| - 1 then 0 else currentService + 1;
    }

    method HandlePrevService()
      requires Valid()
      modifies this
      ensures Valid() && currentService == PrevIndex(old(currentService))
    {
      currentService := if currentService == 0 then |ServicesData| - 1 else currentService - 1;
    }

    /** The title the carousel shows. */
    function Title(): string
      reads this
      requires Valid()
    {
      ServicesData[currentService]
    }
  }
}
