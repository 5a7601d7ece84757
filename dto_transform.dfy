/**
 * `DtoTransformInterceptor`: the route's DTO, else the configured default
 * DTO, else nothing; the chosen DTO projects the handler result onto its
 * exposed properties (`plainToInstance(..., {excludeExtraneousValues: true})`).
 */
module DtoTransform {
  import opened Wrappers
  import opened JsValues
  import opened ResponseDto

  /** The projection of one object: exactly the exposed properties, each
      holding the source value or `undefined` when the source lacks it. */
  function ProjectObject(fields: map<string, JsValue>, dto: Dto): (r: map<string, JsValue>)
    ensures r.Keys == dto.exposed
    ensures forall k :: k in r ==> r[k] == Field(fields, k)
  {
    map k | k in dto.exposed :: Field(fields, k)
  }

  /** `plainToInstance(dto, data, {excludeExtraneousValues: true})`: objects are
      projected, arrays element by element, other values are returned as they are. */
  function Project(data: JsValue, dto: Dto): (r: JsValue)
    ensures data.Obj? ==> r.Obj? && r.fields.Keys == dto.exposed
    ensures data.Arr? ==> r.Arr? && |r.items| == |data.items|
    ensures !data.Obj? && !data.Arr? ==> r == data
    decreases data, 1
  {
    match data
    case Obj(fields) => Obj(ProjectObject(fields, dto))
    case Arr(items) => Arr(ProjectEach(items, dto))
    case _ => data
  }

  /** The projections of `items[from..]`. */
  function ProjectEach(items: seq<JsValue>, dto: Dto, from: nat := 0): (r: seq<JsValue>)
    requires from <= |items|
    ensures |r| == |items| - from
    ensures forall i :: 0 <= i < |r| ==> r[i] == Project(items[from + i], dto)
    decreases Arr(items), 0, |items| - from
  {
    if from == |items| then [] else [Project(items[from], dto)] + ProjectEach(items, dto, from + 1)
  }

  /** Projecting twice onto the same DTO changes nothing more. */
  lemma {:induction false} ProjectIdempotent(data: JsValue, dto: Dto)
    ensures Project(Project(data, dto), dto) == Project(data, dto)
    decreases data
  {
    match data
    case Obj(fields) =>
      var once := ProjectObject(fields, dto);
      assert ProjectObject(once, dto) == once;
    case Arr(items) =>
      var once := ProjectEach(items, dto);
      forall i | 0 <= i < |items|
        ensures Project(once[i], dto) == once[i]
      {
        assert items[i] < data;
        ProjectIdempotent(items[i], dto);
      }
      assert ProjectEach(once, dto) == once;
    case _ =>
  }

  /** A property outside the DTO never reaches the client. */
  lemma ProjectDropsUnexposed(fields: map<string, JsValue>, dto: Dto, key: string)
    requires key !in dto.exposed
    ensures key !in Project(Obj(fields), dto).fields
  {
  }

  /** The interceptor, given the route's DTO and the injected `DEFAULT_DTO`. */
  function Transform(routeDto: Option<Dto>, defaultDto: Option<Dto>, data: JsValue): (r: JsValue)
    ensures routeDto.Some? ==> r == Project(data, routeDto.value)
    ensures routeDto.None? && defaultDto.Some? ==> r == Project(data, defaultDto.value)
    ensures routeDto.None? && defaultDto.None? ==> r == data
  {
    match routeDto
    case Some(dto) => Project(data, dto)
    case None =>
      match defaultDto
      case Some(dto) => Project(data, dto)
      case None => data
  }

  /** With `DEFAULT_DTO` bound to `null`, a route without its own DTO gets its
      result through untouched. */
  lemma NullDefaultDtoPassesThrough(data: JsValue)
    ensures Transform(None, None, data) == data
  {
  }
}
