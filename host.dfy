/** Values the screens exchange with the React Native host: optional values,
    the alerts they show, and the outcome of a `fetch` call. */
module Host {

  datatype Option<+T> = None | Some(value: T)

  /** One `Alert.alert(title, message)` shown to the user. */
  datatype Alert = Alert(title: string, message: string)

  /** What a `fetch` call ends in: a response whose `ok` flag is set, a
      response whose `ok` flag is clear (both with their decoded body), or a
      thrown error (no response, or a body that does not decode). */
  datatype Response<+T> = Ok(body: T) | NotOk(body: T) | Exception
}
