/** The two bulk units offered by the unit selector: the price a user enters
    is per kilogram or per litre. */
module Units {

  datatype Unit = Kg | Litro
}
