/** `LegacyOrderService` of the mixed-scenarios sample: input guards and
    string building. The clock reading `System.currentTimeMillis()` is a
    parameter. */
module LegacyOrders {
  import opened Wrappers
  import opened JavaTypes
  import opened JavaStrings

  datatype IllegalArgumentException = IllegalArgumentException(message: string)

  const CreatedPrefix := "Created order: ORDER-"
  const DataSeparator := " with data: "
  const FoundPrefix := "Order found: "

  /** `processOrder`: null or blank data is refused; otherwise the message
      names the order `ORDER-<millis>` and ends with the data itself. */
  function ProcessOrder(orderData: Option<string>, currentTimeMillis: Int64): (r: Result<string, IllegalArgumentException>)
    ensures r.Failure? <==> orderData.None? || IsBlank(orderData.value)
    ensures r.Failure? ==> r.error.message == "Order data cannot be empty"
    ensures r.Success? ==> CreatedPrefix <= r.value && EndsWith(r.value, DataSeparator + orderData.value)
  {
    if orderData.None? || IsBlank(orderData.value) then
      Failure(IllegalArgumentException("Order data cannot be empty"))
    else
      var digits := LongToString(currentTimeMillis);
      var tail := DataSeparator + orderData.value;
      var r := CreatedPrefix + digits + tail;
      assert r[..|CreatedPrefix|] == CreatedPrefix;
      assert r[|r| - |tail|..] == tail;
      Success(r)
  }

  /** Two calls with the same data at different instants give different messages:
      the timestamp is recoverable from the message. */
  lemma ProcessOrderDistinguishesInstants(orderData: string, t1: Int64, t2: Int64)
    requires !IsBlank(orderData)
    requires ProcessOrder(Some(orderData), t1) == ProcessOrder(Some(orderData), t2)
    ensures t1 == t2
  {
    var s1, s2 := LongToString(t1), LongToString(t2);
    var m1 := CreatedPrefix + s1 + (DataSeparator + orderData);
    var m2 := CreatedPrefix + s2 + (DataSeparator + orderData);
    assert ProcessOrder(Some(orderData), t1).value == m1;
    assert ProcessOrder(Some(orderData), t2).value == m2;
    var n := |CreatedPrefix|;
    var k := |DataSeparator + orderData|;
    assert |s1| == |s2|;
    assert s1 == m1[n..|m1| - k];
    assert s2 == m2[n..|m2| - k];
    LongToStringInjective(t1, t2);
  }

  /** `findOrder`: null or blank ids are refused; otherwise the message is
      the prefix followed by the id, which can be read back. */
  function FindOrder(id: Option<string>): (r: Result<string, IllegalArgumentException>)
    ensures r.Failure? <==> id.None? || IsBlank(id.value)
    ensures r.Failure? ==> r.error.message == "Order ID cannot be empty"
    ensures r.Success? ==> FoundPrefix <= r.value && r.value[|FoundPrefix|..] == id.value
  {
    if id.None? || IsBlank(id.value) then
      Failure(IllegalArgumentException("Order ID cannot be empty"))
    else
      Success("Order found: " + id.value)
  }
}
