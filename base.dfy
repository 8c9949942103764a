/** Types shared by every part of the model: bytes, document ids, optional
    values and the HTTP responses the handlers write back. */
module Base {

  newtype byte = b: int | 0 <= b < 256

  /** A MongoDB ObjectID: twelve bytes. */
  type ObjectId = s: seq<byte> | |s| == 12 witness [0, 0, 0, 0, 0, 0, 0, 0, 0, 0, 0, 0]

  datatype Option<+T> = None | Some(value: T)

  /** What a handler writes back: a status with a body, or a status with the
      plain-text message of `http.Error` (empty when only a header is written). */
  datatype Response<+T> = Ok(status: nat, body: T) | Error(status: nat, message: string)

  const StatusOK: nat := 200
  const StatusCreated: nat := 201
  const StatusBadRequest: nat := 400
  const StatusUnauthorized: nat := 401
  const StatusConflict: nat := 409
  const StatusInternalServerError: nat := 500

  /** Stands for the text of an error returned by the MongoDB driver
      (`err.Error()`), whose wording the model does not follow. */
  const StoreErrorMessage := "store error"
}
