/** What the exporter reports when it refuses a scene, and what stops the importer. */
module Problems {

  /** The setting an exported object is refused for; every export message of the add-on
      starts with the object's name and then names one of these. */
  datatype Problem =
    | UnexpectedExtrapolation(extrapolation: string)
    | UnexpectedInterpolation(interpolation: string)
      // a one-axis property whose only curve has no keyframes encodes to the falsy empty
      // list; the walk then stops without a message
    | EmptyChannel
    | NonSpherical
    | HasShadow
    | UnsupportedFalloff(falloffType: string)
    | IsSquare
    | SpotBlendNotOne
    | UnsupportedLampType(objectType: string)
    | FacesWithoutMaterials
    | UnsupportedMaterial(material: string)
      // `materials[polygon.material_index]` past the last slot raises IndexError
    | MaterialSlotOutOfRange
    | UnsupportedObjectType(objectType: string)
      // a root whose parent inverse is not the identity: `object.parent` is None
    | NoParent

  datatype ExportError =
    | ObjectError(objectName: string, problem: Problem)
    | NotInMeters

  /** The parsed document lacks an element the importer indexes (Python raises IndexError). */
  datatype ImportError =
    | NoChannels
    | EmptyAxis(axis: nat)
    | VertexOutOfRange(material: string, vertex: nat)
}
