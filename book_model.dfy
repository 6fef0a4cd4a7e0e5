/** The bookstore domain values: `BookId`, a UUID wrapper with value equality,
    and `Book`, whose identity is its id. Construction checks for null as the
    Java constructors do. */
module BookModel {
  import opened Wrappers
  import opened JavaTypes

  /** The `NullPointerException` thrown by `Objects.requireNonNull`, with its message. */
  datatype NullPointerException = NullPointerException(message: string)

  /** `BookId`. */
  datatype BookId = BookId(value: Uuid)

  /** `new BookId(value)`: fails on a null value. */
  function NewBookId(value: Option<Uuid>): (r: Result<BookId, NullPointerException>)
    ensures r.Success? <==> value.Some?
    ensures r.Success? ==> r.value.value == value.value
    ensures r.Failure? ==> r.error.message == "BookId value cannot be null"
  {
    match value
    case None => Failure(NullPointerException("BookId value cannot be null"))
    case Some(v) => Success(BookId(v))
  }

  /** `BookId.equals(o)`: false for null, otherwise equality of the wrapped UUIDs. */
  predicate BookIdEquals(id: BookId, o: Option<BookId>)
  {
    o.Some? && id.value == o.value.value
  }

  /** `BookId.hashCode()`: `Objects.hash(value)`. */
  function BookIdHashCode(id: BookId): bv32
  {
    ObjectsHash(UuidHashCode(id.value))
  }

  /** `Book`. */
  datatype Book = Book(id: BookId, title: string, author: string, price: real, isbn: string)

  /** `new Book(...)`: the null checks run in declaration order, so the first
      null argument decides the message. */
  function NewBook(id: Option<BookId>, title: Option<string>, author: Option<string>,
                   price: Option<real>, isbn: Option<string>): (r: Result<Book, NullPointerException>)
    ensures r.Success? <==> id.Some? && title.Some? && author.Some? && price.Some? && isbn.Some?
    ensures r.Success? ==>
      && r.value.id == id.value && r.value.title == title.value && r.value.author == author.value
      && r.value.price == price.value && r.value.isbn == isbn.value
    ensures id.None? ==> r.Failure? && r.error.message == "Book ID cannot be null"
    ensures id.Some? && title.None? ==> r.Failure? && r.error.message == "Title cannot be null"
    ensures id.Some? && title.Some? && author.None? ==> r.Failure? && r.error.message == "Author cannot be null"
    ensures id.Some? && title.Some? && author.Some? && price.None? ==>
      r.Failure? && r.error.message == "Price cannot be null"
    ensures id.Some? && title.Some? && author.Some? && price.Some? && isbn.None? ==>
      r.Failure? && r.error.message == "ISBN cannot be null"
  {
    if id.None? then Failure(NullPointerException("Book ID cannot be null"))
    else if title.None? then Failure(NullPointerException("Title cannot be null"))
    else if author.None? then Failure(NullPointerException("Author cannot be null"))
    else if price.None? then Failure(NullPointerException("Price cannot be null"))
    else if isbn.None? then Failure(NullPointerException("ISBN cannot be null"))
    else Success(Book(id.value, title.value, author.value, price.value, isbn.value))
  }

  /** `Book.equals(o)`: false for null, otherwise `Objects.equals(id, o.id)`. */
  predicate BookEquals(book: Book, o: Option<Book>)
  {
    o.Some? && BookIdEquals(book.id, Some(o.value.id))
  }

  /** `Book.hashCode()`: `Objects.hash(id)`. */
  function BookHashCode(book: Book): bv32
  {
    ObjectsHash(BookIdHashCode(book.id))
  }

  // ---------------------------------------------------------------- properties

  /** Two BookIds are equal exactly when their UUIDs are. */
  lemma BookIdEqualsIffSameUuid(a: BookId, b: BookId)
    ensures BookIdEquals(a, Some(b)) <==> a.value == b.value
  {
  }

  /** Equal BookIds have equal hash codes. */
  lemma BookIdHashCodeConsistent(a: BookId, b: BookId)
    requires BookIdEquals(a, Some(b))
    ensures BookIdHashCode(a) == BookIdHashCode(b)
  {
  }

  /** Book equality is by id alone: title, author, price and ISBN play no part. */
  lemma BookEqualsIffSameId(a: Book, b: Book)
    ensures BookEquals(a, Some(b)) <==> a.id == b.id
  {
  }

  /** Book equality is reflexive, symmetric and transitive. */
  lemma BookEqualsIsEquivalence(a: Book, b: Book, c: Book)
    ensures BookEquals(a, Some(a))
    ensures BookEquals(a, Some(b)) ==> BookEquals(b, Some(a))
    ensures BookEquals(a, Some(b)) && BookEquals(b, Some(c)) ==> BookEquals(a, Some(c))
  {
  }

  /** Equal books have equal hash codes: `hashCode` is consistent with `equals`. */
  lemma BookHashCodeConsistent(a: Book, b: Book)
    requires BookEquals(a, Some(b))
    ensures BookHashCode(a) == BookHashCode(b)
  {
  }
}
