/** The product table's rows, what updates may touch, and the DTO the service returns. */
module Catalog {
  import opened Results
  import opened Clock

  type Id = string

  /** What the schemas let through as a price. */
  type Price = amount: real | amount > 0.0 witness 1.0

  datatype Product = Product(
    id: Id,
    title: string,
    description: string,
    price: real,
    stock: int,
    images: seq<string>,
    tags: seq<string>,
    isActive: bool,
    sellerId: Id,
    categoryId: Id,
    createdAt: Time,
    updatedAt: Time)

  /** The mapper's output: every column but `tags`. */
  datatype ProductDto = ProductDto(
    id: Id,
    title: string,
    description: string,
    price: real,
    stock: int,
    images: seq<string>,
    categoryId: Id,
    sellerId: Id,
    isActive: bool,
    createdAt: Time,
    updatedAt: Time)

  /** A DTO shows a row: each of its columns under its own name. */
  predicate Describes(dto: ProductDto, p: Product) {
    && dto.id == p.id && dto.title == p.title && dto.description == p.description
    && dto.price == p.price && dto.stock == p.stock && dto.images == p.images
    && dto.categoryId == p.categoryId && dto.sellerId == p.sellerId && dto.isActive == p.isActive
    && dto.createdAt == p.createdAt && dto.updatedAt == p.updatedAt
  }

  function ToDto(p: Product): (dto: ProductDto)
    ensures Describes(dto, p)
  {
    ProductDto(p.id, p.title, p.description, p.price, p.stock, p.images, p.categoryId, p.sellerId, p.isActive,
               p.createdAt, p.updatedAt)
  }

  function ToCollectionDto(rows: seq<Product>): (dtos: seq<ProductDto>)
    ensures |dtos| == |rows| && forall i | 0 <= i < |rows| :: Describes(dtos[i], rows[i])
  {
    seq(|rows|, i requires 0 <= i < |rows| => ToDto(rows[i]))
  }

  /** A validated create body; optional lists default to empty, a new row is active. */
  datatype CreateData = CreateData(
    title: string,
    description: string,
    price: Price,
    categoryId: Id,
    images: seq<string>,
    stock: nat,
    tags: seq<string>)

  /** A validated update body: the create fields, each optional. */
  datatype UpdateData = UpdateData(
    title: Option<string>,
    description: Option<string>,
    price: Option<Price>,
    categoryId: Option<Id>,
    images: Option<seq<string>>,
    stock: Option<nat>,
    tags: Option<seq<string>>)

  function Or<T>(o: Option<T>, default: T): T {
    if o.Some? then o.value else default
  }

  /** A new row is active, belongs to its creator, and holds what the body says. */
  predicate Holds(p: Product, data: CreateData) {
    && p.title == data.title && p.description == data.description && p.price == data.price
    && p.categoryId == data.categoryId && p.images == data.images && p.stock == data.stock && p.tags == data.tags
  }

  function Created(id: Id, sellerId: Id, data: CreateData, now: Time): (p: Product)
    ensures p.id == id && p.sellerId == sellerId && p.isActive && p.createdAt == p.updatedAt == now
    ensures Holds(p, data)
  {
    Product(id, data.title, data.description, data.price, data.stock, data.images, data.tags, true, sellerId,
            data.categoryId, now, now)
  }

  /** One column after an edit: what the body gives, or what it was. */
  predicate Set<T(==)>(was: T, given: Option<T>, is': T) {
    match given
    case Some(value) => is' == value
    case None => is' == was
  }

  /** An edit sets the columns its body gives, and no other but updatedAt. */
  predicate Edited(p: Product, p': Product, data: UpdateData) {
    && Set(p.title, data.title, p'.title) && Set(p.description, data.description, p'.description)
    && (match data.price case Some(price) => p'.price == price case None => p'.price == p.price)
    && Set(p.categoryId, data.categoryId, p'.categoryId) && Set(p.images, data.images, p'.images)
    && (match data.stock case Some(stock) => p'.stock == stock case None => p'.stock == p.stock)
    && Set(p.tags, data.tags, p'.tags)
    && p'.id == p.id && p'.sellerId == p.sellerId && p'.isActive == p.isActive && p'.createdAt == p.createdAt
  }

  function Updated(p: Product, data: UpdateData, now: Time): (p': Product)
    ensures Edited(p, p', data) && p'.updatedAt == now
  {
    p.(title := Or(data.title, p.title),
       description := Or(data.description, p.description),
       price := Or(data.price, p.price),
       categoryId := Or(data.categoryId, p.categoryId),
       images := Or(data.images, p.images),
       stock := Or(data.stock, p.stock),
       tags := Or(data.tags, p.tags),
       updatedAt := now)
  }

  function Deactivated(p: Product, now: Time): (p': Product)
    ensures !p'.isActive && p' == p.(isActive := false, updatedAt := now)
  {
    p.(isActive := false, updatedAt := now)
  }

  function Decremented(p: Product, quantity: int, now: Time): (p': Product)
    ensures p'.stock + quantity == p.stock && p' == p.(stock := p'.stock, updatedAt := now)
  {
    p.(stock := p.stock - quantity, updatedAt := now)
  }

  /** What a seller may do to a row. */
  datatype Change = Edit(data: UpdateData) | SoftDelete

  /** What update and delete make of a row. */
  function Changed(p: Product, change: Change, now: Time): Product {
    match change
    case Edit(data) => Updated(p, data, now)
    case SoftDelete => Deactivated(p, now)
  }

  /** How long the service caches a product, and a list. */
  const DETAIL_TTL: Time := 120 * SECOND
  const LIST_TTL: Time := 60 * SECOND
}
