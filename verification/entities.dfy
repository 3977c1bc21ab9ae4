/**
 * The records the storefront passes around: products as the upstream catalog API
 * delivers them, the signed-in user, cart lines and the registration form.
 */
module Entities {
  import opened Common

  /**
   * A product record. Optional fields of the upstream JSON are `Option`s; money, percentages and
   * ratings are exact reals (the JavaScript numbers are binary floating point).
   */
  datatype Product = Product(
    id: int,
    title: string,
    description: string,
    brand: Option<string>,
    category: string,
    price: real,
    discountPercentage: Option<real>,
    rating: Option<real>,
    stock: int,
    thumbnail: Option<string>,
    images: Option<seq<string>>)

  /** The session record that login and registration synthesise and the store keeps. */
  datatype User = User(
    id: int,
    firstName: string,
    lastName: string,
    email: string,
    username: string,
    image: string,
    token: string)

  /** A cart entry `{...product, quantity}`: a copy of the product taken when it was first added. */
  datatype CartLine = CartLine(product: Product, quantity: int)
  {
    function id(): int { product.id }
    function price(): real { product.price }
  }

  /** The registration form, which is also the payload the mock `register` call receives. */
  datatype RegisterForm = RegisterForm(fullName: string, email: string, password: string, confirmPassword: string)

  /** The form fields a screen can edit by name. */
  datatype RegisterField = FullNameField | EmailField | PasswordField | ConfirmPasswordField
}
