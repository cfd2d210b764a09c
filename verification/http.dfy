/** The request and response shapes the API routes share. */
module Http {
  import opened Wrappers
  import opened Types

  /** The outcome of `await req.json()`: a parse failure throws. */
  datatype JsonBody<T> = Malformed | Parsed(value: T)

  /** A JSON response body. */
  datatype Body =
    | ErrorMessage(error: string)   // `{ error }`
    | UserDocument(user: User)      // `{ user }`
    | CreatedChat(chatId: string)   // `{ chatId }`

  /** `NextResponse.json(body, { status })`; the status defaults to 200. */
  datatype Response = Response(status: int, body: Body)

  const Ok: int := 200
  const BadRequest: int := 400
  const Unauthorized: int := 401
  const NotFound: int := 404
  const InternalServerError: int := 500

  /** A header value as `headers.get(name)` returns it, tested for truthiness: absent and "" both fail. */
  predicate HasValue(header: Option<string>) {
    header.Some? && header.value != ""
  }
}
