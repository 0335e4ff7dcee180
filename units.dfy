/** Time units shared by the user model and the rate limiter, which both count minutes in milliseconds. */
module Units {
  const MsPerMinute: int := 60 * 1000
}
