/** `BookService`, the bookstore use case. The `BookRepository` port is a
    map from book id to book. */
module BookUseCase {
  import opened Wrappers
  import opened JavaTypes
  import opened BookModel

  /** The exceptions the service throws, with the value that was looked up. */
  datatype BookError =
    | DuplicateIsbn(isbn: string)
    | BookNotFoundById(id: BookId)
    | BookNotFoundByIsbn(isbn: string)
    | CannotDeleteMissing(id: BookId)

  /** Some stored book has this ISBN. */
  predicate IsbnTaken(books: map<BookId, Book>, isbn: string)
  {
    exists id :: id in books && books[id].isbn == isbn
  }

  /** No two stored books share an ISBN. */
  predicate UniqueIsbns(books: map<BookId, Book>)
  {
    forall i, j :: i in books && j in books && books[i].isbn == books[j].isbn ==> i == j
  }

  /** Every book is stored under its own id. */
  predicate KeyedById(books: map<BookId, Book>)
  {
    forall id :: id in books ==> books[id].id == id
  }

  /** Storing a book whose ISBN is not yet taken keeps the ISBNs unique, even
      when its id replaces an existing entry. */
  lemma StoringNewIsbnKeepsUnique(books: map<BookId, Book>, book: Book)
    requires UniqueIsbns(books) && !IsbnTaken(books, book.isbn)
    ensures UniqueIsbns(books[book.id := book])
  {
    var after := books[book.id := book];
    forall i, j | i in after && j in after && after[i].isbn == after[j].isbn
      ensures i == j
    {
      if i != book.id && j != book.id {
        assert books[i].isbn == books[j].isbn;
      }
    }
  }

  /** A repository with unique ISBNs has at most one book per ISBN. */
  lemma UniqueIsbnsDetermineBook(books: map<BookId, Book>, a: Book, b: Book)
    requires UniqueIsbns(books) && KeyedById(books)
    requires a in books.Values && b in books.Values && a.isbn == b.isbn
    ensures a == b
  {
    var i :| i in books && books[i] == a;
    var j :| j in books && books[j] == b;
  }

  class BookService {
    /** The `BookRepository` port: the stored books by id. */
    var books: map<BookId, Book>

    /** The state `createBook` and `deleteBook` maintain. */
    ghost predicate Valid()
      reads this
    {
      KeyedById(books) && UniqueIsbns(books)
    }

    /** Wraps the given repository, whose contents are keyed by id and whose
        ISBN column is unique (`unique = true` on the entity's `isbn`). */
    constructor (initialBooks: map<BookId, Book>)
      requires KeyedById(initialBooks) && UniqueIsbns(initialBooks)
      ensures Valid() && books == initialBooks
    {
      books := initialBooks;
    }

    /** `BookRepository.findByIsbn`: a stored book with the ISBN, if any. */
    method RepositoryFindByIsbn(isbn: string) returns (r: Option<Book>)
      ensures r.Some? ==> r.value in books.Values && r.value.isbn == isbn
      ensures r.None? <==> !IsbnTaken(books, isbn)
    {
      var unseen := books.Keys;
      while unseen != {}
        invariant unseen <= books.Keys
        invariant forall id :: id in books && id !in unseen ==> books[id].isbn != isbn
        decreases unseen
      {
        var id :| id in unseen;
        if books[id].isbn == isbn {
          return Some(books[id]);
        }
        unseen := unseen - {id};
      }
      return None;
    }

    /** `createBook`: a taken ISBN throws `DuplicateIsbnException` and saves
        nothing; otherwise a book with a fresh id (`newId`, the value of
        `UUID.randomUUID()`) and the given fields is saved and returned. */
    method CreateBook(title: string, author: string, price: real, isbn: string, newId: Uuid)
      returns (r: Result<Book, BookError>)
      requires Valid()
      modifies this
      ensures Valid()
      ensures IsbnTaken(old(books), isbn) ==> r == Failure(DuplicateIsbn(isbn)) && books == old(books)
      ensures !IsbnTaken(old(books), isbn) ==>
        && r == Success(Book(BookId(newId), title, author, price, isbn))
        && books == old(books)[BookId(newId) := r.value]
    {
      var existing := RepositoryFindByIsbn(isbn);
      if existing.Some? {
        return Failure(DuplicateIsbn(isbn));
      }
      var book := Book(BookId(newId), title, author, price, isbn);
      StoringNewIsbnKeepsUnique(books, book);
      books := books[book.id := book];
      r := Success(book);
    }

    /** `findById`: the stored book, or `BookNotFoundException`. */
    method FindById(id: BookId) returns (r: Result<Book, BookError>)
      ensures r.Success? <==> id in books
      ensures r.Success? ==> r.value == books[id]
      ensures r.Failure? ==> r.error == BookNotFoundById(id)
    {
      if id in books {
        r := Success(books[id]);
      } else {
        r := Failure(BookNotFoundById(id));
      }
    }

    /** `findByIsbn`: the stored book with the ISBN, or `BookNotFoundException`. */
    method FindByIsbn(isbn: string) returns (r: Result<Book, BookError>)
      ensures r.Success? <==> IsbnTaken(books, isbn)
      ensures r.Success? ==> r.value in books.Values && r.value.isbn == isbn
      ensures r.Failure? ==> r.error == BookNotFoundByIsbn(isbn)
    {
      var found := RepositoryFindByIsbn(isbn);
      if found.Some? {
        r := Success(found.value);
      } else {
        r := Failure(BookNotFoundByIsbn(isbn));
      }
    }

    /** `findByAuthor`: the repository's result, returned as it is. */
    method FindByAuthor(author: string) returns (r: set<Book>)
      ensures forall b :: b in r <==> b in books.Values && b.author == author
    {
      r := set id | id in books && books[id].author == author :: books[id];
    }

    /** `findAllBooks`: the repository's result, returned as it is. */
    method FindAllBooks() returns (r: set<Book>)
      ensures r == books.Values
    {
      r := books.Values;
    }

    /** `deleteBook`: a missing id throws and deletes nothing; otherwise exactly that book goes. */
    method DeleteBook(id: BookId) returns (r: Outcome<BookError>)
      requires Valid()
      modifies this
      ensures Valid()
      ensures id !in old(books) ==> r == Fail(CannotDeleteMissing(id)) && books == old(books)
      ensures id in old(books) ==> r == Pass && books == old(books) - {id}
    {
      if id !in books {
        return Fail(CannotDeleteMissing(id));
      }
      books := books - {id};
      r := Pass;
    }
  }
}
