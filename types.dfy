/** The entities of types.ts. Optional and nullable fields are `Option`s;
    an absent furniture `link` is the empty string, which the list treats
    the same way (falsy). */
module Types {
  import opened Wrappers

  /** A decoded image: base64 text and its media type (types.ts:9-12). */
  datatype ImageBase64 = ImageBase64(data: string, mimeType: string)

  /** A recommended product (types.ts:1-7). */
  datatype Furniture = Furniture(
    name: string,
    description: string,
    price: string,
    link: string,
    imageUrl: Option<string>)

  /** One refinement step (types.ts:14-18): the prompt and the resulting image,
      as a data URL and as a decoded cache that may be null. */
  datatype Iteration = Iteration(
    prompt: string,
    imageUrl: string,
    imageBase64: Option<ImageBase64>)

  /** One design style applied to the room (types.ts:20-28). */
  datatype StyleVariation = StyleVariation(
    styleName: string,
    description: string,
    colorPalette: seq<string>,
    furnitureRecommendations: seq<Furniture>,
    imageUrl: string,
    imageBase64: Option<ImageBase64>,
    iterations: seq<Iteration>)

  /** One uploaded room and its generated styles (types.ts:30-38). */
  datatype Project = Project(
    id: string,
    name: string,
    originalImage: string,
    originalImageBase64: Option<ImageBase64>,
    analysis: string,
    styleVariations: seq<StyleVariation>,
    createdAt: string)

  /** The page the application shows (types.ts:48). */
  datatype AppView = UploadView | ProjectView | ArchiveView | FavoritesView
}
