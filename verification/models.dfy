/** The stored entities (the interfaces under src/models). Dates are millisecond timestamps;
    optional fields are `Option`s; numbers coming from a parsed model reply are reals. */
module Models {
  import opened Wrappers

  datatype Category = Category(
    name: string,
    description: string,
    keywords: seq<string>,
    createdAt: Option<int>)

  datatype Figure = Figure(
    name: string,
    description: string,
    imageUrl: Option<string>,
    tags: seq<string>,
    createdAt: Option<int>)

  datatype Post = Post(
    quote: string,
    category: string,
    figure: string,
    imagePath: string,
    hash: string,
    facebookPostId: Option<string>,
    postedAt: int,
    createdAt: int,
    qualityScore: Option<real>,
    viralityScore: Option<real>,
    emotion: Option<string>,
    generatedReason: Option<string>,
    openingWord: Option<string>,
    tone: Option<string>)
}
