/** The selector trees that the query engine builds and matches. */
module Selectors {

  datatype AttrOp = Exists | Equals | Includes | DashMatch | Prefix | Suffix | SubString

  datatype TextOp = OwnContains | Contains

  datatype UnaryOp = Not | HasDescendant | HasChild

  datatype Simple =
    | Dummy
    | Empty
    | OnlyChild(ofType: bool)
    | NthChild(a: int, b: int, last: bool, ofType: bool)
    | Tag(tag: int)
    | Attr(op: AttrOp, key: string, value: string)
    | Text(textOp: TextOp, text: string)

  datatype Selector =
    | Leaf(simple: Simple)
    | Unary(op: UnaryOp, sel: Selector)
    | Union(left: Selector, right: Selector)
    | Intersection(left: Selector, right: Selector)
    | Child(left: Selector, right: Selector)
    | Descendant(left: Selector, right: Selector)
    | Adjacent(left: Selector, right: Selector, next: bool)
}
