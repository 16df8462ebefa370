/** The error a MongoDB unique index raises, shared by every collection of the model. */
module MongoErrors {

  /** The message of the error `save` throws when a unique index already holds the key. */
  const DuplicateKeyMessage := "E11000 duplicate key error"
}
