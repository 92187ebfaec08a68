/**
 * The Tailwind class strings that both colour mappings of the application
 * return. The dashboard page and the badge components spell them out
 * separately; here each is declared once so that the two mappings can be
 * compared.
 */
module Palette {

  const Yellow: string := "bg-yellow-100 text-yellow-800"
  const Blue: string := "bg-blue-100 text-blue-800"
  const Green: string := "bg-green-100 text-green-800"
  const Gray: string := "bg-gray-100 text-gray-800"
  const Orange: string := "bg-orange-100 text-orange-800"
  const Red: string := "bg-red-100 text-red-800"
}
