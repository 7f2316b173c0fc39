/**
 * Record identifiers. Every record is keyed by an object id, which the handlers
 * compare through its string form (`review.user.toString() !== userId`), so the
 * ids are modelled as strings.
 */
module Ids {
  type UserId = string
  type RecipeId = string
  type ReviewId = string

  /** HTTP status codes the handlers answer with. */
  const Ok: int := 200
  const Created: int := 201
  const BadRequest: int := 400
  const Forbidden: int := 403
  const NotFound: int := 404
  const ServerError: int := 500
}
