/** Values exchanged by the bill splitter: the dishes of a request as they
    arrive, the validated dishes, per-person results and stored bill records.
    Money is an exact `real`; the service's float arithmetic is not modelled. */
module BillTypes {

  /** One field of a dish object in the request body: missing, present but
      unusable, or present with a usable value. */
  datatype Field<+T> = Absent | Malformed | Given(value: T)

  /** A dish as it arrives. A `Malformed` name is one that cannot be used as
      a dictionary key (a list or an object); a `Malformed` price is one that
      cannot be converted to a number. */
  datatype RawDish = RawDish(name: Field<string>, price: Field<real>)

  /** A dish whose name and price were both read successfully. */
  datatype Dish = Dish(name: string, price: real)

  /** The assignment map: dish name to the names of the people who shared it. */
  type Assignments = map<string, seq<string>>

  /** One entry of the result list. */
  datatype PersonTotal = PersonTotal(name: string, amount: real)

  /** What a successful calculation returns to its caller. */
  datatype Calculation = Calculation(results: seq<PersonTotal>, total: real)

  /** What the store keeps under a bill id. */
  datatype BillRecord = BillRecord(results: seq<PersonTotal>, total: real, timestamp: string)

  /** The exception a malformed dish raises inside the calculation. */
  datatype CalcError =
    | MissingName   // dish['name'] raises KeyError
    | MissingPrice  // dish['price'] raises KeyError
    | BadPrice      // float(dish['price']) raises
    | BadName       // assignments.get(dish_name) raises on an unhashable name

  datatype Result<+T> = Ok(value: T) | Err(error: CalcError)

  /** A plain-text HTTP reply: status code and body. */
  datatype Reply = Reply(status: int, body: string)
}
