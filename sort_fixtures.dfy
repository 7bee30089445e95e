/**
 * The four restaurants of the sort strategies' test fixture, and the order
 * each strategy puts them in: ratings 4.5, 3.8, 4.9 and none; earliest
 * delivery 30, 20, 40 and unknown minutes; minimum orders 15, 10, 20 and none;
 * delivery costs 5, 3.5, 0 and none.
 */
module SortFixtures {
  import opened Wrappers
  import opened Restaurants
  import opened SortStrategy

  const R1 := WithId("1").(rating := Some(Rating(Some(4.5), None)), deliveryEtaMinutes := Some(DeliveryEta(Some(30.0), Some(45.0))), minimumDeliveryValue := Some(15.0), deliveryCost := Some(5.0))
  const R2 := WithId("2").(rating := Some(Rating(Some(3.8), None)), deliveryEtaMinutes := Some(DeliveryEta(Some(20.0), Some(35.0))), minimumDeliveryValue := Some(10.0), deliveryCost := Some(3.5))
  const R3 := WithId("3").(rating := Some(Rating(Some(4.9), None)), deliveryEtaMinutes := Some(DeliveryEta(Some(40.0), Some(55.0))), minimumDeliveryValue := Some(20.0), deliveryCost := Some(0.0))
  const R4 := WithId("4")

  lemma ReviewsFixture()
    ensures Sort(Reviews, [R1, R2, R3, R4]) == [R3, R1, R2, R4]
  {
    ReviewsSorted();
  }

  lemma ReviewsSorted()
    ensures InsertionSort(Reviews, [R1, R2, R3, R4]) == [R3, R1, R2, R4]
  {
    var o := Reviews;
    assert StarRating(R1) == 4.5 && StarRating(R2) == 3.8 && StarRating(R3) == 4.9 && StarRating(R4) == 0.0;
    assert [R1, R2, R3, R4][1..] == [R2, R3, R4];
    assert [R2, R3, R4][1..] == [R3, R4];
    assert [R3, R4][1..] == [R4];
    assert InsertionSort(o, [R4]) == [R4];
    assert InsertionSort(o, [R3, R4]) == Insert(o, R3, [R4]) == [R3, R4];
    assert Insert(o, R2, [R4]) == [R2, R4];
    assert InsertionSort(o, [R2, R3, R4]) == Insert(o, R2, [R3, R4]) == [R3, R2, R4];
    assert Insert(o, R1, [R2, R4]) == [R1, R2, R4];
    assert InsertionSort(o, [R1, R2, R3, R4]) == Insert(o, R1, [R3, R2, R4]) == [R3, R1, R2, R4];
  }


  lemma EtaFixture()
    ensures Sort(EstimatedDeliveryTime, [R1, R2, R3, R4]) == [R2, R1, R3, R4]
  {
    EtaSorted();
  }

  lemma EtaSorted()
    ensures InsertionSort(EstimatedDeliveryTime, [R1, R2, R3, R4]) == [R2, R1, R3, R4]
  {
    var o := EstimatedDeliveryTime;
    assert [R1, R2, R3, R4][1..] == [R2, R3, R4];
    assert [R2, R3, R4][1..] == [R3, R4];
    assert [R3, R4][1..] == [R4];
    assert InsertionSort(o, [R4]) == [R4];
    assert InsertionSort(o, [R3, R4]) == [R3, R4];
    assert InsertionSort(o, [R2, R3, R4]) == [R2, R3, R4];
    assert Insert(o, R1, [R3, R4]) == [R1, R3, R4];
  }
  lemma MinFixture()
    ensures Sort(MinOrderAmount, [R1, R2, R3, R4]) == [R4, R2, R1, R3]
  {
    MinSorted();
  }

  lemma MinSorted()
    ensures InsertionSort(MinOrderAmount, [R1, R2, R3, R4]) == [R4, R2, R1, R3]
  {
    var o := MinOrderAmount;
    assert [R1, R2, R3, R4][1..] == [R2, R3, R4];
    assert [R2, R3, R4][1..] == [R3, R4];
    assert [R3, R4][1..] == [R4];
    assert InsertionSort(o, [R4]) == [R4];
    assert MinOrder(R3) == 20.0 && MinOrder(R4) == 0.0 && !InOrder(o, R3, R4);
    assert Insert(o, R3, []) == [R3];
    assert Insert(o, R3, [R4]) == [R4] + Insert(o, R3, []);
    assert InsertionSort(o, [R3, R4]) == [R4, R3];
    assert Insert(o, R2, [R3]) == [R2, R3];
    assert InsertionSort(o, [R2, R3, R4]) == [R4, R2, R3];
    assert Insert(o, R1, [R3]) == [R1, R3];
    assert Insert(o, R1, [R2, R3]) == [R2, R1, R3];
  }
  lemma CostFixture()
    ensures Sort(DeliveryCost, [R1, R2, R3, R4]) == [R3, R4, R2, R1]
  {
    CostSorted();
  }

  lemma CostSorted()
    ensures InsertionSort(DeliveryCost, [R1, R2, R3, R4]) == [R3, R4, R2, R1]
  {
    var o := DeliveryCost;
    assert [R1, R2, R3, R4][1..] == [R2, R3, R4];
    assert [R2, R3, R4][1..] == [R3, R4];
    assert [R3, R4][1..] == [R4];
    assert InsertionSort(o, [R4]) == [R4];
    assert InsertionSort(o, [R3, R4]) == [R3, R4];
    assert Insert(o, R2, [R4]) == [R4, R2];
    assert Insert(o, R2, [R3, R4]) == [R3] + Insert(o, R2, [R4]);
    assert InsertionSort(o, [R2, R3, R4]) == [R3, R4, R2];
    assert Insert(o, R1, [R2]) == [R2, R1];
    assert Insert(o, R1, [R4, R2]) == [R4, R2, R1];
    assert Insert(o, R1, [R3, R4, R2]) == [R3, R4, R2, R1];
  }
}
