/** The quota units one request consumes (internal/filters/rate_limiter/filter.go). */
module RequestCost {
  import opened Basics

  datatype DynamicCost = DynamicCost(enabled: bool, fallback: int, maxAllowed: int)

  /** `ApplyDefaults`: a fallback below one becomes one. */
  function WithDefaults(d: DynamicCost): (r: DynamicCost)
    ensures r.fallback >= 1 && r.enabled == d.enabled && r.maxAllowed == d.maxAllowed
    ensures r.fallback == if d.fallback >= 1 then d.fallback else 1
  {
    if d.fallback < 1 then d.(fallback := 1) else d
  }

  /** `parsed` is the cost header as a number, if it is one. */
  method Cost(d: DynamicCost, parsed: Option<int>) returns (cost: int)
    ensures cost >= 1 <==> !d.enabled || d.fallback >= 1 || (parsed.Some? && parsed.value >= 1)
    ensures d.enabled && d.maxAllowed > 0 ==> cost <= d.maxAllowed
    ensures d.enabled && parsed.Some? && 1 <= parsed.value && (d.maxAllowed > 0 ==> parsed.value <= d.maxAllowed)
            ==> cost == parsed.value
    ensures d.enabled && (parsed.None? || parsed.value < 1) && (d.maxAllowed > 0 ==> d.fallback <= d.maxAllowed)
            ==> cost == d.fallback
    ensures !d.enabled ==> cost == 1
  {
    if !d.enabled {
      return 1;
    }
    cost := d.fallback;
    if parsed.Some? && parsed.value >= 1 {
      cost := parsed.value;
    }
    if d.maxAllowed > 0 && cost > d.maxAllowed {
      cost := d.maxAllowed;
    }
  }

  /** Once defaults are applied, no header can make a request free or refund quota. */
  method CostOf(configured: DynamicCost, parsed: Option<int>) returns (cost: int)
    ensures cost >= 1
    ensures configured.enabled && configured.maxAllowed > 0 ==> cost <= configured.maxAllowed
  {
    cost := Cost(WithDefaults(configured), parsed);
  }
}
