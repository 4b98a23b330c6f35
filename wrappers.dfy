/** Option, Result and Outcome: the model's stand-ins for null references,
    values-or-exceptions and void-or-exception. */
module Wrappers {

  datatype Option<+T> = None | Some(value: T)

  datatype Result<+R, +E> = Success(value: R) | Failure(error: E)

  datatype Outcome<+E> = Pass | Fail(error: E)
}

/** The .NET exceptions that the modelled code throws or lets through. */
module Exceptions {

  import opened Wrappers

  datatype Exception =
    | ArgumentException(message: string, paramName: Option<string>)
    | ArgumentNullException(nullParam: string)
    | InvalidOperationException(message: string)
    | ProductNotFoundException(message: string)
      /** Any `System.Data.Common.DbException` raised by the ADO.NET provider
          (SqliteException among them); `code` tells two of them apart. */
    | DbException(code: nat)
      /** Any other exception raised by the provider. */
    | OtherException(code: nat)
}
