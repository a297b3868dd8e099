/**
 * The `useProperties` hook: the listing state it holds and the handlers
 * that update it. The two calls to the hosted database are replaced by
 * their replies, given to each handler as an `Outcome`.
 */
module PropertiesHook {
  import opened Wrappers
  import opened Records
  import Paging

  const ListErrorPrefix: string := "Error al cargar las propiedades: "
  const DetailErrorPrefix: string := "Error al cargar la propiedad: "

  /** The reply of one query: its data, or the message of the error it raised. */
  datatype Outcome<T> = Ok(value: T) | Failed(message: string)

  class ListingState {
    var properties: seq<Property>
    var property: Option<Property>
    var loading: bool
    var error: Option<string>
    var page: int
    var totalPages: nat
    var totalCount: nat

    /**
     * The page number never drops below 1, `totalPages` is the page count
     * of `totalCount` (except before the first count arrives, when it is 1
     * over a count of 0), and every loaded record carries the photos
     * parsed from its own `images`.
     */
    ghost predicate Valid()
      reads this
    {
      page >= 1 &&
      (totalPages == Paging.TotalPages(totalCount) || (totalCount == 0 && totalPages == 1)) &&
      forall i :: 0 <= i < |properties| ==> HasParsedPhotos(properties[i])
    }

    /** The hook's initial state. */
    constructor ()
      ensures Valid()
      ensures properties == [] && property == None && !loading && error == None
      ensures page == 1 && totalPages == 1 && totalCount == 0
    {
      properties := [];
      property := None;
      loading := false;
      error := None;
      page := 1;
      totalPages := 1;
      totalCount := 0;
    }

    /**
     * `fetchProperties(p)`. The count query's reply is `countReply`; when it
     * succeeds the row query for `Paging.RangeFor(p)` is issued, whose
     * reply is `rowsReply`, and that range is returned in `requested`.
     * A failure of the row query leaves `properties` as it was although
     * `totalCount` and `totalPages` have already changed; a success never
     * clears an earlier `error`; every path ends with `loading` false.
     */
    method FetchProperties(p: int, countReply: Outcome<nat>, rowsReply: Outcome<seq<Row>>)
      returns (requested: Option<Paging.RowRange>)
      requires Valid()
      modifies this
      ensures Valid()
      ensures !loading
      ensures page == old(page) && property == old(property)
      ensures countReply.Failed? ==>
        requested == None &&
        totalCount == old(totalCount) && totalPages == old(totalPages) &&
        properties == old(properties) &&
        error == Some(ListErrorPrefix + countReply.message)
      ensures countReply.Ok? ==>
        requested == Some(Paging.RangeFor(p)) &&
        totalCount == countReply.value && totalPages == Paging.TotalPages(countReply.value)
      ensures countReply.Ok? && rowsReply.Failed? ==>
        properties == old(properties) && error == Some(ListErrorPrefix + rowsReply.message)
      ensures countReply.Ok? && rowsReply.Ok? ==>
        properties == WithPhotosAll(rowsReply.value) && error == old(error)
    {
      loading := true;
      var range := Paging.RangeFor(p);
      match countReply {
        case Failed(message) =>
          error := Some(ListErrorPrefix + message);
          loading := false;
          requested := None;
        case Ok(count) =>
          totalCount := count;
          totalPages := Paging.TotalPages(count);
          requested := Some(range);
          match rowsReply {
            case Failed(message) =>
              error := Some(ListErrorPrefix + message);
              loading := false;
            case Ok(rows) =>
              properties := WithPhotosAll(rows);
              loading := false;
          }
      }
    }

    /**
     * `fetchPropertyById(id)`: the reply of the single-row query for `id`
     * is `reply`. Returns the record with its photos, or `None` (`null`)
     * on failure, when `property` is left as it was.
     */
    method FetchPropertyById(id: int, reply: Outcome<Row>) returns (result: Option<Property>)
      requires Valid()
      modifies this
      ensures Valid()
      ensures !loading
      ensures properties == old(properties) && page == old(page)
      ensures totalPages == old(totalPages) && totalCount == old(totalCount)
      ensures reply.Ok? ==>
        result == Some(WithPhotos(reply.value)) && property == result && error == old(error)
      ensures reply.Failed? ==>
        result == None && property == old(property) &&
        error == Some(DetailErrorPrefix + reply.message)
    {
      loading := true;
      match reply {
        case Failed(message) =>
          error := Some(DetailErrorPrefix + message);
          loading := false;
          result := None;
        case Ok(data) =>
          var withPhotos := WithPhotos(data);
          property := Some(withPhotos);
          loading := false;
          result := Some(withPhotos);
      }
    }

    /** `nextPage()`: one page forward when `page < totalPages`. */
    method NextPage()
      requires Valid()
      modifies this`page
      ensures Valid()
      ensures page == Paging.NextPageOf(old(page), totalPages)
    {
      if page < totalPages {
        page := page + 1;
      }
    }

    /** `prevPage()`: one page back when `page > 1`. */
    method PrevPage()
      requires Valid()
      modifies this`page
      ensures Valid()
      ensures page == Paging.PrevPageOf(old(page))
    {
      if page > 1 {
        page := page - 1;
      }
    }

    /** The exported `setProperty` setter. */
    method SetProperty(p: Option<Property>)
      requires Valid()
      modifies this`property
      ensures Valid() && property == p
    {
      property := p;
    }
  }
}
