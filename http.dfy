/**
  What a handler hands to Express: cookies to set or clear, then one reply.
  Response bodies are the JSON objects the handlers build, one variant per shape.
*/
module Http {
  import opened Wrappers
  import opened UserModel

  datatype CookieOp =
    | SetCookie(name: string, value: string, maxAgeMs: int)
    | ClearCookie(name: string)

  datatype Body =
    | Envelope(success: bool, message: string)                 // { success, message }
    | AuthSuccess(token: string, user: PublicUser)             // { success: true, message: 'Authentication successful', token, user }
    | ProfileBody(user: PublicUser)                            // { success: true, user }
    | TokenRefreshed(token: string)                            // { success: true, message: 'Token refreshed successfully', token }
    | MessageOnly(info: Option<string>)                        // { message }
    | LoggedIn(info: Option<string>, email: string, firstName: string, lastName: string, token: string)
                                                               // { message, userDetails: { email, firstName, lastName }, Token }
    | SignedUp(userName: Option<string>, emailId: Option<string>, givenName: Option<string>, familyName: Option<string>)
                                                               // { message: 'User signed up successfully', userDetail: { UserName, Email-ID, First Name, Last Name } }
    | RateLimited(message: string, retryAfter: string)         // { success: false, message, retryAfter }

  datatype Reply =
    | Json(status: int, body: Body)
    | Redirect(url: string)
    | ProviderRedirect(state: string)   // passport.authenticate sending the browser to Google with `state`
    | NoReply                           // the handler ends without answering

  datatype Response = Response(cookies: seq<CookieOp>, reply: Reply)
}
