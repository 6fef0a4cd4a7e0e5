/** `BookEntity`, the JPA entity of the bookstore's database adapter: a
    mutable record with nullable fields and the conversions to and from the
    domain `Book`. */
module BookPersistence {
  import opened Wrappers
  import opened JavaTypes
  import opened BookModel

  class BookEntity {
    var id: Option<Uuid>
    var title: Option<string>
    var author: Option<string>
    var price: Option<real>
    var isbn: Option<string>

    /** The no-argument constructor JPA uses: every field null. */
    constructor Empty()
      ensures id.None? && title.None? && author.None? && price.None? && isbn.None?
    {
      id, title, author, price, isbn := None, None, None, None, None;
    }

    /** The all-fields constructor; it checks nothing. */
    constructor (id: Option<Uuid>, title: Option<string>, author: Option<string>,
                 price: Option<real>, isbn: Option<string>)
      ensures this.id == id && this.title == title && this.author == author
      ensures this.price == price && this.isbn == isbn
    {
      this.id, this.title, this.author, this.price, this.isbn := id, title, author, price, isbn;
    }

    /** `fromDomain`: copy the book's UUID and fields into a new entity, which
        converts back to the very same book. */
    static method FromDomain(book: Book) returns (entity: BookEntity)
      ensures fresh(entity)
      ensures entity.id == Some(book.id.value) && entity.title == Some(book.title)
      ensures entity.author == Some(book.author) && entity.price == Some(book.price)
      ensures entity.isbn == Some(book.isbn)
      ensures entity.ToDomain() == Success(book)
    {
      entity := new BookEntity(Some(book.id.value), Some(book.title), Some(book.author),
                               Some(book.price), Some(book.isbn));
    }

    /** `toDomain`: wrap the id in a `BookId` (whose null check runs first),
        then build the `Book` (whose null checks run next). */
    function ToDomain(): (r: Result<Book, NullPointerException>)
      reads this
      ensures r.Success? <==> id.Some? && title.Some? && author.Some? && price.Some? && isbn.Some?
      ensures r.Success? ==> r.value == Book(BookId(id.value), title.value, author.value, price.value, isbn.value)
      ensures id.None? ==> r == Failure(NullPointerException("BookId value cannot be null"))
    {
      match NewBookId(id)
      case Failure(e) => Failure(e)
      case Success(bookId) => NewBook(Some(bookId), title, author, price, isbn)
    }

    method SetId(id: Option<Uuid>)
      modifies this`id
      ensures this.id == id
    {
      this.id := id;
    }

    method SetTitle(title: Option<string>)
      modifies this`title
      ensures this.title == title
    {
      this.title := title;
    }

    method SetAuthor(author: Option<string>)
      modifies this`author
      ensures this.author == author
    {
      this.author := author;
    }

    method SetPrice(price: Option<real>)
      modifies this`price
      ensures this.price == price
    {
      this.price := price;
    }

    method SetIsbn(isbn: Option<string>)
      modifies this`isbn
      ensures this.isbn == isbn
    {
      this.isbn := isbn;
    }
  }

  /** An entity made by the no-argument constructor cannot be converted: `toDomain` throws. */
  method EmptyEntityDoesNotConvert() returns (r: Result<Book, NullPointerException>)
    ensures r == Failure(NullPointerException("BookId value cannot be null"))
  {
    var entity := new BookEntity.Empty();
    r := entity.ToDomain();
  }
}
