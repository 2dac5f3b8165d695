/**
 * The salon query keys and the options `useGetSalon` hands to the query
 * library. Keys are arrays whose elements are strings, numbers or the list
 * parameters object.
 */
module UseSalon {
  import opened Js
  import opened SalonApi

  /** One element of a query key. */
  datatype KeyPart = Text(s: string) | Id(n: int) | Params(p: Option<ListParams>)

  type QueryKey = seq<KeyPart>

  /** `salonKeys.all`. */
  const All: QueryKey := [Text("salons")]

  /** `salonKeys.lists()`. */
  function Lists(): (k: QueryKey)
    ensures k == [Text("salons"), Text("list")]
  {
    All + [Text("list")]
  }

  /** `salonKeys.list(params)`. */
  function List(p: Option<ListParams>): (k: QueryKey)
    ensures k == Lists() + [Params(p)]
  {
    Lists() + [Params(p)]
  }

  /** `salonKeys.details()`. */
  function Details(): (k: QueryKey)
    ensures k == [Text("salons"), Text("detail")]
  {
    All + [Text("detail")]
  }

  /** `salonKeys.detail(id)`. */
  function Detail(id: int): (k: QueryKey)
    ensures k == [Text("salons"), Text("detail"), Id(id)]
  {
    Details() + [Id(id)]
  }

  /** Every key the factory builds starts with `'salons'`. */
  lemma KeysStartWithSalons(p: Option<ListParams>, id: int)
    ensures All <= Lists() && All <= List(p) && All <= Details() && All <= Detail(id)
  {
  }

  /** `lists()` is a prefix of every list key, so invalidating it reaches every list query. */
  lemma ListsPrefixOfList(p: Option<ListParams>)
    ensures Lists() <= List(p) && |List(p)| == |Lists()| + 1
  {
  }

  /** Detail keys identify their salon, and no detail key is a list key or under `lists()`. */
  lemma DetailKeysDistinct(a: int, b: int, p: Option<ListParams>)
    ensures Detail(a) == Detail(b) <==> a == b
    ensures Detail(a) != List(p) && !(Lists() <= Detail(a)) && !(Details() <= List(p))
  {
    assert Detail(a)[1] != Lists()[1];
    assert List(p)[1] != Details()[1];
    if Detail(a) == Detail(b) {
      assert Detail(a)[2] == Detail(b)[2];
    }
  }

  /** List keys for different parameters differ. */
  lemma ListKeysDistinct(p: Option<ListParams>, q: Option<ListParams>)
    ensures List(p) == List(q) <==> p == q
  {
    if List(p) == List(q) {
      assert List(p)[2] == List(q)[2];
    }
  }

  /** The caller's optional settings. */
  datatype SalonOptions = SalonOptions(enabled: Option<bool>, refetchOnWindowFocus: Option<bool>)

  /** What `useGetSalon` passes to `useQuery` besides the fetch itself. */
  datatype QueryOptions = QueryOptions(
    queryKey: QueryKey, enabled: bool, refetchOnWindowFocus: bool, staleTime: int, gcTime: int)

  /** `a ?? b` over an optional boolean. */
  function OrDefault(a: Option<bool>, b: bool): bool {
    if a.Some? then a.value else b
  }

  /** `useGetSalon(salonId, options)`. */
  function GetSalonOptions(salonId: int, options: Option<SalonOptions>): (q: QueryOptions)
    ensures q.queryKey == Detail(salonId)
    ensures q.staleTime == 300000 && q.gcTime == 600000
  {
    var enabledOpt := if options.Some? then options.value.enabled else None;
    var refetchOpt := if options.Some? then options.value.refetchOnWindowFocus else None;
    QueryOptions(
      Detail(salonId),
      salonId != 0 && OrDefault(enabledOpt, true),
      OrDefault(refetchOpt, false),
      5 * 60 * 1000,
      10 * 60 * 1000)
  }

  /** The query runs only for a non-zero id, and then unless the caller switched it off. */
  lemma EnabledRule(salonId: int, options: Option<SalonOptions>)
    ensures GetSalonOptions(salonId, options).enabled
      <==> salonId != 0 && !(options.Some? && options.value.enabled == Some(false))
  {
  }

  /** Refetching on window focus is off unless the caller asks for it. */
  lemma RefetchOffByDefault(salonId: int, options: Option<SalonOptions>)
    ensures GetSalonOptions(salonId, options).refetchOnWindowFocus
      <==> options.Some? && options.value.refetchOnWindowFocus == Some(true)
  {
  }
}
