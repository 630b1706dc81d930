/**
 * The records of the tree census: species, sectors and trees, as stored in the
 * database and as the denormalised `Tree` view of src/models/Tree.ts.
 */
module TreeModel {
  import opened Optional

  /**
   * A JavaScript number that is only passed through (diameter, latitude,
   * longitude, polygon vertices); no arithmetic is done on it anywhere.
   */
  type Float(==, !new)

  /** A polygon vertex. */
  type Point = (Float, Float)

  /** A species record as stored: the six displayed fields, an optional stored `id`, and any other fields. */
  datatype RawSpecies = RawSpecies(
    storedId: Option<string>,
    commonName: string,
    scientificName: string,
    foliage: string,
    color: string,
    description: string,
    imageUrl: string,
    extra: map<string, string>)

  /** A sector record as stored: name, boundary polygon and any other fields. */
  datatype RawSector = RawSector(name: string, polygon: seq<Point>, extra: map<string, string>)

  /** The species object embedded into a tree view. */
  datatype Species = Species(
    commonName: string,
    scientificName: string,
    foliage: string,
    color: string,
    description: string,
    imageUrl: string)

  /** The sector object embedded into a tree view. */
  datatype Sector = Sector(name: string, polygon: seq<Point>)

  /**
   * Every field of a stored tree that the view copies unchanged; `extra` holds
   * the stored fields that Tree.ts does not declare (the street address, for one).
   */
  datatype TreeFields = TreeFields(
    speciesId: string,
    code: string,
    dateBirth: string,
    registerDate: string,
    diameter: Float,
    deleteDate: string,
    latitude: Float,
    longitude: Float,
    modifyDate: string,
    sectorId: string,
    imageUrl: string,
    createdBy: string,
    extra: map<string, string>)

  /** A tree record as stored: possibly with an `id` field of its own. */
  datatype RawTree = RawTree(storedId: Option<string>, fields: TreeFields)

  /** The denormalised tree of Tree.ts: `species?` and `sector?` are optional. */
  datatype Tree = Tree(id: string, fields: TreeFields, species: Option<Species>, sector: Option<Sector>)
}
