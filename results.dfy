/**
 * Optional values, the exceptions the services throw, and results that carry
 * either a value or the exception that ended the call.
 */
module Results {

  datatype Option<T> = None | Some(value: T)

  /** The exceptions thrown by the modelled services, with the messages they carry. */
  datatype Exception =
    | ArgumentException(message: string)
    | ArgumentNullException
      /**
       * `SingleOrDefault` found more than one match, or a query could not
       * evaluate one of the values it captures.
       */
    | InvalidOperationException(message: string)
      /** SecurityTokenException and the token handler's own validation exceptions. */
    | SecurityTokenException(message: string)
    | ApplicationException(message: string)
      /** A plain System.Exception. */
    | GeneralException(message: string)
      /** SaveChanges rejected the pending rows (a duplicate primary key). */
    | DbUpdateException
      /** The message broker did not accept a publish. */
    | BrokerException

  datatype Result<T> = Ok(value: T) | Err(error: Exception)
}
