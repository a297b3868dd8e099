/**
 * The listing record as the service returns it (`Row`) and as the hook
 * hands it to the views (`Property`: the row spread into a new object
 * together with the parsed `fotos`).
 */
module Records {
  import opened Wrappers
  import Photos

  /**
   * One row of the `properties` table. The columns the views read have
   * their own fields; the remaining selected columns (`caractextra`,
   * `barrio`, `url`, `latitude`, ...) are carried as text in `otherColumns`.
   */
  datatype Row = Row(
    id: int,
    title: string,
    description: Option<string>,
    site: string,
    priceAmount: int,
    priceCurrency: Option<string>,
    expensesAmount: Option<string>,
    dormitorios: Option<string>,
    banos: Option<string>,
    superficieCubierta: Option<string>,
    antiguedad: Option<string>,
    address: Option<string>,
    images: Option<string>,
    otherColumns: map<string, string>)

  /** `{ ...row, fotos: photos }` */
  datatype Property = Property(row: Row, fotos: seq<string>)

  /** The record's `fotos` are the ones parsed from its own `images`. */
  predicate HasParsedPhotos(p: Property) {
    p.fotos == Photos.ParsePhotos(p.row.images)
  }

  /** Adds `fotos` parsed from `images`; every column of the row is copied unchanged. */
  function WithPhotos(r: Row): (p: Property)
    ensures p.row == r && HasParsedPhotos(p)
    ensures forall k :: 0 <= k < |p.fotos| ==> Photos.IsPhotoUrl(p.fotos[k])
  {
    Property(r, Photos.ParsePhotos(r.images))
  }

  /** `rows.map(withPhotos)`: one record per row, in the same order. */
  function WithPhotosAll(rows: seq<Row>): (ps: seq<Property>)
    ensures |ps| == |rows|
    ensures forall i :: 0 <= i < |rows| ==> ps[i].row == rows[i] && HasParsedPhotos(ps[i])
  {
    seq(|rows|, i requires 0 <= i < |rows| => WithPhotos(rows[i]))
  }
}
