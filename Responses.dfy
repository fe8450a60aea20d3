/**
 * What the repository hands to the list view-model: the list endpoint's response body
 * and the typed outcome wrapping it.
 */
module Responses {

  /** One `{ name, url }` summary in the list response. */
  datatype Result = Result(name: string, url: string)

  /** The list response: the total `count` the server reports and this response's `results`. */
  datatype PokemonList = PokemonList(count: int, results: seq<Result>)

  /**
   * The repository's outcome for one list request. `Resource.Loading` is never produced by
   * the repository, and its `Error` always carries no data, so neither appears here.
   */
  datatype Resource = Success(data: PokemonList) | Error(message: string)

  /** The arguments of one `getPokemonList(limit, offset)` request. */
  datatype PageRequest = PageRequest(limit: int, offset: int)
}
